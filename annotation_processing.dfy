/**
 * Turning a segmentation mask into one flat polygon, and polygons into
 * axis-aligned bounding boxes.
 *
 * The contour tracer (OpenCV's external-contour, simple-chain tracer) is not
 * modelled: a mask is represented by the list of contours the tracer returns
 * for it, in the tracer's order.
 */
module AnnotationProcessing {

  /** A pixel position, as a traced contour lists it: `[x, y]`. */
  datatype Point = Point(x: int, y: int)

  type Contour = seq<Point>

  /** A mask, seen through the external contours traced in it. */
  datatype Mask = Mask(contours: seq<Contour>)

  /** A contour becomes part of the polygon only if it has at least three points. */
  predicate IsKept(c: Contour) { |c| >= 3 }

  // ---------------------------------------------------------------------
  // create_mask_annotation
  // ---------------------------------------------------------------------

  /**
   * The polygon built from the first `|contours|` contours: the previous
   * contours' polygon, extended by the last contour when it is kept.
   */
  function MaskPolygon(contours: seq<Contour>): seq<Point>
  {
    if contours == [] then []
    else
      var last := contours[|contours| - 1];
      MaskPolygon(contours[..|contours| - 1]) + (if IsKept(last) then last else [])
  }

  /** Reference definition: drop the short contours, then concatenate in order. */
  function KeptContours(contours: seq<Contour>): (kept: seq<Contour>)
    ensures forall k :: 0 <= k < |kept| ==> IsKept(kept[k])
    ensures |kept| <= |contours|
  {
    if contours == [] then []
    else (if IsKept(contours[0]) then [contours[0]] else []) + KeptContours(contours[1..])
  }

  function Flatten(cs: seq<Contour>): seq<Point>
  {
    if cs == [] then [] else cs[0] + Flatten(cs[1..])
  }

  /** Total number of points in a list of contours. */
  function PointCount(cs: seq<Contour>): nat
  {
    if cs == [] then 0 else |cs[0]| + PointCount(cs[1..])
  }

  /**
   * `create_mask_annotation`: walks the traced contours in order and extends
   * one flat point list with every contour of at least three points.
   */
  method CreateMaskAnnotation(mask: Mask) returns (polygon: seq<Point>)
    ensures polygon == MaskPolygon(mask.contours)
  {
    var contours := mask.contours;
    polygon := [];
    for i := 0 to |contours|
      invariant polygon == MaskPolygon(contours[..i])
    {
      var contour := contours[i];
      assert contours[..i + 1][..i] == contours[..i];
      if |contour| >= 3 {
        polygon := polygon + contour;
      }
    }
    assert contours[..|contours|] == contours;
  }

  /** The polygon of a concatenation of contour lists is the concatenation of their polygons. */
  lemma {:induction false} MaskPolygonAppend(a: seq<Contour>, b: seq<Contour>)
    ensures MaskPolygon(a + b) == MaskPolygon(a) + MaskPolygon(b)
    decreases |b|
  {
    if b == [] {
      assert a + b == a;
    } else {
      var b' := b[..|b| - 1];
      assert (a + b)[..|a + b| - 1] == a + b';
      assert (a + b)[|a + b| - 1] == b[|b| - 1];
      MaskPolygonAppend(a, b');
    }
  }

  /** A contour with fewer than three points contributes nothing, wherever it stands. */
  lemma ShortContourDropped(a: seq<Contour>, c: Contour, b: seq<Contour>)
    requires |c| < 3
    ensures MaskPolygon(a + [c] + b) == MaskPolygon(a + b)
  {
    MaskPolygonAppend(a + [c], b);
    MaskPolygonAppend(a, [c]);
    MaskPolygonAppend(a, b);
    assert [c][..0] == [];
  }

  /** A contour of three or more points contributes all its points, in place. */
  lemma LongContourKept(a: seq<Contour>, c: Contour, b: seq<Contour>)
    requires |c| >= 3
    ensures MaskPolygon(a + [c] + b) == MaskPolygon(a) + c + MaskPolygon(b)
  {
    MaskPolygonAppend(a + [c], b);
    MaskPolygonAppend(a, [c]);
    assert [c][..0] == [];
  }

  /** The polygon is exactly the in-order concatenation of the kept contours. */
  lemma {:induction false} MaskPolygonIsFlattenedKept(contours: seq<Contour>)
    ensures MaskPolygon(contours) == Flatten(KeptContours(contours))
    decreases |contours|
  {
    if contours != [] {
      var c := contours[0];
      var rest := contours[1..];
      assert contours == [c] + rest;
      MaskPolygonAppend([c], rest);
      assert [c][..0] == [];
      MaskPolygonIsFlattenedKept(rest);
      FlattenAppend(if IsKept(c) then [c] else [], KeptContours(rest));
    }
  }

  lemma {:induction false} FlattenAppend(a: seq<Contour>, b: seq<Contour>)
    ensures Flatten(a + b) == Flatten(a) + Flatten(b)
    decreases |a|
  {
    if a == [] {
      assert a + b == b;
    } else {
      assert (a + b)[0] == a[0] && (a + b)[1..] == a[1..] + b;
      FlattenAppend(a[1..], b);
    }
  }

  lemma {:induction false} FlattenLength(cs: seq<Contour>)
    ensures |Flatten(cs)| == PointCount(cs)
    decreases |cs|
  {
    if cs != [] {
      FlattenLength(cs[1..]);
    }
  }

  /** The polygon has as many points as the kept contours together. */
  lemma MaskPolygonLength(contours: seq<Contour>)
    ensures |MaskPolygon(contours)| == PointCount(KeptContours(contours))
  {
    MaskPolygonIsFlattenedKept(contours);
    FlattenLength(KeptContours(contours));
  }

  /** The polygon is empty exactly when every traced contour has fewer than three points. */
  lemma {:induction false} MaskPolygonEmpty(contours: seq<Contour>)
    ensures MaskPolygon(contours) == [] <==> forall k :: 0 <= k < |contours| ==> !IsKept(contours[k])
    decreases |contours|
  {
    if contours != [] {
      var init := contours[..|contours| - 1];
      MaskPolygonEmpty(init);
      assert forall k :: 0 <= k < |init| ==> init[k] == contours[k];
    }
  }

  // ---------------------------------------------------------------------
  // polygons_to_bboxes
  // ---------------------------------------------------------------------

  /** `[x_min, y_min, x_max, y_max]`. */
  datatype BBox = BBox(xMin: int, yMin: int, xMax: int, yMax: int)

  function Xs(polygon: seq<Point>): (xs: seq<int>)
    ensures |xs| == |polygon| && forall k :: 0 <= k < |xs| ==> xs[k] == polygon[k].x
  {
    seq(|polygon|, k requires 0 <= k < |polygon| => polygon[k].x)
  }

  function Ys(polygon: seq<Point>): (ys: seq<int>)
    ensures |ys| == |polygon| && forall k :: 0 <= k < |ys| ==> ys[k] == polygon[k].y
  {
    seq(|polygon|, k requires 0 <= k < |polygon| => polygon[k].y)
  }

  /** Python's `min` of a non-empty list of ints. */
  function Min(s: seq<int>): (m: int)
    requires |s| > 0
    ensures m in s && forall k :: 0 <= k < |s| ==> m <= s[k]
  {
    if |s| == 1 then s[0]
    else
      var rest := Min(s[1..]);
      if s[0] <= rest then s[0] else rest
  }

  /** Python's `max` of a non-empty list of ints. */
  function Max(s: seq<int>): (m: int)
    requires |s| > 0
    ensures m in s && forall k :: 0 <= k < |s| ==> s[k] <= m
  {
    if |s| == 1 then s[0]
    else
      var rest := Max(s[1..]);
      if rest <= s[0] then s[0] else rest
  }

  predicate Inside(p: Point, b: BBox)
  {
    b.xMin <= p.x <= b.xMax && b.yMin <= p.y <= b.yMax
  }

  /** Every vertex of the polygon lies in the box. */
  predicate Encloses(b: BBox, polygon: seq<Point>)
  {
    forall k :: 0 <= k < |polygon| ==> Inside(polygon[k], b)
  }

  /** Each of the four bounds is reached by some vertex. */
  predicate Tight(b: BBox, polygon: seq<Point>)
  {
    && (exists k :: 0 <= k < |polygon| && polygon[k].x == b.xMin)
    && (exists k :: 0 <= k < |polygon| && polygon[k].y == b.yMin)
    && (exists k :: 0 <= k < |polygon| && polygon[k].x == b.xMax)
    && (exists k :: 0 <= k < |polygon| && polygon[k].y == b.yMax)
  }

  /** The min/max reduction of a non-empty polygon: an empty one makes `min` raise. */
  function BoundingBox(polygon: seq<Point>): (b: BBox)
    requires |polygon| > 0
    ensures b.xMin <= b.xMax && b.yMin <= b.yMax
    ensures Encloses(b, polygon) && Tight(b, polygon)
  {
    BBox(Min(Xs(polygon)), Min(Ys(polygon)), Max(Xs(polygon)), Max(Ys(polygon)))
  }

  /** The bounding box is the only box that encloses the polygon and is tight on all four sides. */
  lemma BoundingBoxUnique(polygon: seq<Point>, b: BBox)
    requires |polygon| > 0
    requires Encloses(b, polygon) && Tight(b, polygon)
    ensures b == BoundingBox(polygon)
  {
    SameBounds(polygon, b, BoundingBox(polygon));
  }

  /** Two boxes that both enclose a polygon and are both tight on it are the same box. */
  lemma SameBounds(polygon: seq<Point>, b: BBox, c: BBox)
    requires Encloses(b, polygon) && Tight(b, polygon)
    requires Encloses(c, polygon) && Tight(c, polygon)
    ensures b == c
  {
    assert b.xMin == c.xMin by {
      var i :| 0 <= i < |polygon| && polygon[i].x == b.xMin;
      var j :| 0 <= j < |polygon| && polygon[j].x == c.xMin;
      assert Inside(polygon[i], c) && Inside(polygon[j], b);
    }
    assert b.yMin == c.yMin by {
      var i :| 0 <= i < |polygon| && polygon[i].y == b.yMin;
      var j :| 0 <= j < |polygon| && polygon[j].y == c.yMin;
      assert Inside(polygon[i], c) && Inside(polygon[j], b);
    }
    assert b.xMax == c.xMax by {
      var i :| 0 <= i < |polygon| && polygon[i].x == b.xMax;
      var j :| 0 <= j < |polygon| && polygon[j].x == c.xMax;
      assert Inside(polygon[i], c) && Inside(polygon[j], b);
    }
    assert b.yMax == c.yMax by {
      var i :| 0 <= i < |polygon| && polygon[i].y == b.yMax;
      var j :| 0 <= j < |polygon| && polygon[j].y == c.yMax;
      assert Inside(polygon[i], c) && Inside(polygon[j], b);
    }
  }

  /**
   * `polygons_to_bboxes`: one box per polygon, in the same order. Every
   * polygon must have a point, since `min` of an empty list raises.
   */
  method PolygonsToBBoxes(polygons: seq<seq<Point>>) returns (bboxes: seq<BBox>)
    requires forall k :: 0 <= k < |polygons| ==> |polygons[k]| > 0
    ensures |bboxes| == |polygons|
    ensures forall k :: 0 <= k < |polygons| ==> bboxes[k] == BoundingBox(polygons[k])
  {
    bboxes := [];
    for i := 0 to |polygons|
      invariant |bboxes| == i
      invariant forall k :: 0 <= k < i ==> bboxes[k] == BoundingBox(polygons[k])
    {
      var polygon := polygons[i];
      var xCoords := Xs(polygon);
      var yCoords := Ys(polygon);
      bboxes := bboxes + [BBox(Min(xCoords), Min(yCoords), Max(xCoords), Max(yCoords))];
    }
  }
}
