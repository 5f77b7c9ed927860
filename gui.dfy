/**
 * The annotation session behind the main window: the uploaded image list,
 * the current index, the per-image annotation lists and the pending mask.
 *
 * Widgets, drawing, dialogs and the display scale are not modelled. What the
 * user picks in a file dialog, what the segmentation model returns for a
 * click, and how the export splits the images are parameters.
 */
module Gui {
  import opened Wrappers
  import opened Text
  import opened AnnotationProcessing
  import opened DatasetExport

  /** The mask awaiting confirmation (its preview image is not modelled). */
  datatype TempMask = TempMask(polygon: seq<Point>)

  /** The exceptions `save_mask` and a canvas click can raise. */
  datatype GuiError =
    | IndexError   // no image is loaded, so `images[current_image_index]` fails
    | TypeError    // no pending mask, so `temp_mask['polygon']` fails; or an empty polygon reaches the preview's polygon drawing
    | ValueError   // the pending polygon is empty, so `min` fails

  /** What the export button leads to. */
  datatype ExportOutcome =
    | NothingToExport
    | Cancelled
    | Exported(files: seq<LabelFile>, manifest: DataYaml)
    | ExportFailed(files: seq<LabelFile>, error: ExportError)

  /** The index points at a listed image, and is 0 while there is none. */
  predicate IndexInRange(count: nat, index: int)
  {
    if count == 0 then index == 0 else 0 <= index < count
  }

  /** The record `save_mask` stores: the polygon and its min/max box, and no class id. */
  function SavedRecord(polygon: seq<Point>): (r: AnnotationRecord)
    requires |polygon| > 0
    ensures r.polygon == polygon && r.classId.None? && r.bbox.Some?
    ensures Encloses(r.bbox.value, polygon) && Tight(r.bbox.value, polygon)
  {
    AnnotationRecord(polygon, Some(BoundingBox(polygon)), None)
  }

  /** A pending mask, if there is one, has at least one point. */
  predicate HasPoint(m: Option<TempMask>) { m.None? || |m.value.polygon| > 0 }

  /** No stored record has a class id: the session never assigns one. */
  predicate Unlabelled(annotations: map<string, seq<AnnotationRecord>>)
  {
    forall p :: p in annotations ==> forall a :: 0 <= a < |annotations[p]| ==> annotations[p][a].classId.None?
  }

  /** An image's list, or the empty list `save_mask` creates for an image without one. */
  function EntryOf(annotations: map<string, seq<AnnotationRecord>>, key: string): seq<AnnotationRecord>
  {
    if key in annotations then annotations[key] else []
  }

  lemma UpdateTwice(m: map<string, seq<AnnotationRecord>>, key: string, v: seq<AnnotationRecord>, w: seq<AnnotationRecord>)
    ensures m[key := v][key := w] == m[key := w]
  {
  }

  /** `images` lists stored images only, and every stored image at least once. */
  predicate ListsStoredImages(annotations: map<string, seq<AnnotationRecord>>, images: seq<string>)
  {
    && (forall k :: 0 <= k < |images| ==> images[k] in annotations)
    && (forall p :: p in annotations ==> p in images)
  }

  // ---------------------------------------------------------------------
  // The annotated-image count of the status bar
  // ---------------------------------------------------------------------

  /** The listed images that have an entry, in list order. */
  function Annotated(images: seq<string>, annotations: map<string, seq<AnnotationRecord>>): (listed: seq<string>)
    ensures |listed| <= |images|
    ensures forall k :: 0 <= k < |listed| ==> listed[k] in images && listed[k] in annotations
  {
    if images == [] then []
    else (if images[0] in annotations then [images[0]] else []) + Annotated(images[1..], annotations)
  }

  function AnnotatedCount(images: seq<string>, annotations: map<string, seq<AnnotationRecord>>): (n: nat)
    ensures n <= |images|
  {
    |Annotated(images, annotations)|
  }

  /** The count never exceeds the number of images, and reaches it exactly when every image has an entry. */
  lemma {:induction false} AnnotatedCountBound(images: seq<string>, annotations: map<string, seq<AnnotationRecord>>)
    ensures AnnotatedCount(images, annotations) <= |images|
    ensures AnnotatedCount(images, annotations) == |images| <==> forall k :: 0 <= k < |images| ==> images[k] in annotations
    decreases |images|
  {
    if images != [] {
      AnnotatedCountBound(images[1..], annotations);
      assert forall k :: 1 <= k < |images| ==> images[1..][k - 1] == images[k];
    }
  }

  /** The count is zero exactly when no image has an entry. */
  lemma {:induction false} AnnotatedCountZero(images: seq<string>, annotations: map<string, seq<AnnotationRecord>>)
    ensures AnnotatedCount(images, annotations) == 0 <==> forall k :: 0 <= k < |images| ==> images[k] !in annotations
    decreases |images|
  {
    if images != [] {
      AnnotatedCountZero(images[1..], annotations);
      assert forall k :: 1 <= k < |images| ==> images[1..][k - 1] == images[k];
    }
  }

  /**
   * Giving an image an entry never lowers the count, and raises it when the
   * image is listed and had no entry before.
   */
  lemma {:induction false} AnnotatedCountGrows(images: seq<string>, annotations: map<string, seq<AnnotationRecord>>,
                                               key: string, v: seq<AnnotationRecord>)
    ensures AnnotatedCount(images, annotations[key := v]) >= AnnotatedCount(images, annotations)
    ensures key in images && key !in annotations ==>
      AnnotatedCount(images, annotations[key := v]) > AnnotatedCount(images, annotations)
    decreases |images|
  {
    if images != [] {
      AnnotatedCountGrows(images[1..], annotations, key, v);
      assert key in images ==> images[0] == key || key in images[1..];
    }
  }

  /** `a/b`, as the status line shows a count out of a total. */
  function CountText(a: int, b: int): (text: string)
    ensures IntToString(a) + "/" <= text && ' ' !in text
  {
    IntToStringHasNoSeparator(a, ' ');
    IntToStringHasNoSeparator(b, ' ');
    IntToString(a) + "/" + IntToString(b)
  }

  /** The status line: the 1-based position, the total and the annotated count. */
  function StatusText(position: int, total: nat, annotated: nat): (status: string)
    ensures "Image " + CountText(position, total) + " " <= status
  {
    "Image " + CountText(position, total) + " | Annotated: " + CountText(annotated, total)
  }

  /** The status line splits at spaces into five fields, the second and the fifth being `a/b` counts. */
  lemma StatusTextFields(position: int, total: nat, annotated: nat)
    ensures var fields := Split(StatusText(position, total, annotated), ' ');
      && |fields| == 5
      && fields[0] == "Image" && fields[2] == "|" && fields[3] == "Annotated:"
      && Split(fields[1], '/') == [IntToString(position), IntToString(total)]
      && Split(fields[4], '/') == [IntToString(annotated), IntToString(total)]
  {
    var first, second := CountText(position, total), CountText(annotated, total);
    CountTextFields(position, total);
    CountTextFields(annotated, total);
    var parts := ["Image", first, "|", "Annotated:", second];
    JoinFive("Image", first, "|", "Annotated:", second, ' ');
    assert "Image" + " " == "Image ";
    assert " " + "|" + " " + "Annotated:" + " " == " | Annotated: ";
    assert Join(parts, ' ') == StatusText(position, total, annotated);
    SplitJoin(parts, ' ');
  }

  /** A count splits back at the slash and holds no space. */
  lemma CountTextFields(a: int, b: int)
    ensures Split(CountText(a, b), '/') == [IntToString(a), IntToString(b)]
    ensures ' ' !in CountText(a, b)
  {
    IntToStringHasNoSeparator(a, '/');
    IntToStringHasNoSeparator(b, '/');
    IntToStringHasNoSeparator(a, ' ');
    IntToStringHasNoSeparator(b, ' ');
    assert Join([IntToString(a), IntToString(b)], '/') == CountText(a, b);
    SplitJoin([IntToString(a), IntToString(b)], '/');
    JoinExcludes([IntToString(a), IntToString(b)], '/', ' ');
  }

  lemma JoinFive(a: string, b: string, c: string, d: string, e: string, sep: char)
    ensures Join([a, b, c, d, e], sep) == (a + [sep]) + b + ([sep] + c + [sep] + d + [sep]) + e
  {
    var parts := [a, b, c, d, e];
    assert parts[1..][1..][1..] == [d, e];
    assert Join([d, e], sep) == d + [sep] + e;
    assert parts[1..][1..] == [c, d, e];
    assert Join([c, d, e], sep) == c + [sep] + (d + [sep] + e);
    assert parts[1..] == [b, c, d, e];
    assert Join([b, c, d, e], sep) == b + [sep] + (c + [sep] + (d + [sep] + e));
    assert Join(parts, sep) == a + [sep] + (b + [sep] + (c + [sep] + (d + [sep] + e)));
  }

  /** The status line determines the position, the total and the annotated count it shows. */
  lemma StatusTextDetermines(position: int, total: nat, annotated: nat,
                             position': int, total': nat, annotated': nat)
    requires StatusText(position, total, annotated) == StatusText(position', total', annotated')
    ensures position == position' && total == total' && annotated == annotated'
  {
    StatusTextFields(position, total, annotated);
    StatusTextFields(position', total', annotated');
    IntToStringRoundTrip(position);
    IntToStringRoundTrip(position');
    IntToStringRoundTrip(total);
    IntToStringRoundTrip(total');
    IntToStringRoundTrip(annotated);
    IntToStringRoundTrip(annotated');
  }

  // ---------------------------------------------------------------------
  // save_mask
  // ---------------------------------------------------------------------

  /** What `save_mask` leaves: the exception it raised, if any, the annotations and the pending mask. */
  datatype SaveResult = SaveResult(error: Option<GuiError>, annotations: map<string, seq<AnnotationRecord>>,
                                   tempMask: Option<TempMask>)

  /**
   * `save_mask` on a session state: no image raises `IndexError` and changes
   * nothing; otherwise the current image gets a list, then a missing mask
   * raises `TypeError`, an empty polygon raises `ValueError`, and a polygon
   * with a point is appended as a record and the pending mask dropped.
   */
  function SaveMaskEffect(images: seq<string>, index: int, annotations: map<string, seq<AnnotationRecord>>,
                          tempMask: Option<TempMask>): (r: SaveResult)
    requires IndexInRange(|images|, index)
    ensures images == [] ==> r == SaveResult(Some(IndexError), annotations, tempMask)
    ensures images != [] && tempMask.None? ==> r.error == Some(TypeError)
    ensures images != [] && tempMask.Some? && tempMask.value.polygon == [] ==> r.error == Some(ValueError)
    ensures r.error.None? <==> images != [] && tempMask.Some? && tempMask.value.polygon != []
  {
    if images == [] then SaveResult(Some(IndexError), annotations, tempMask)
    else
      var key := images[index];
      match tempMask
      case None => SaveResult(Some(TypeError), annotations[key := EntryOf(annotations, key)], tempMask)
      case Some(m) =>
        if m.polygon == [] then SaveResult(Some(ValueError), annotations[key := EntryOf(annotations, key)], tempMask)
        else SaveResult(None, annotations[key := EntryOf(annotations, key) + [SavedRecord(m.polygon)]], None)
  }

  /**
   * Only the current image's list can change: every other image keeps its
   * entry, or its absence. Once an image is loaded, the current one has an
   * entry whatever happens next.
   */
  lemma SaveMaskTouchesOneKey(images: seq<string>, index: int, annotations: map<string, seq<AnnotationRecord>>,
                              tempMask: Option<TempMask>)
    requires IndexInRange(|images|, index)
    ensures var after := SaveMaskEffect(images, index, annotations, tempMask).annotations;
      && (images != [] ==> images[index] in after)
      && (forall p :: (images == [] || p != images[index]) ==>
            (p in after <==> p in annotations) && (p in after ==> after[p] == annotations[p]))
  {
  }

  /**
   * A save either fails, leaving the current image's earlier records as
   * they were, or appends exactly one record, holding the pending polygon,
   * its min/max box and no class id, and drops the pending mask.
   */
  lemma SaveMaskAppendsOne(images: seq<string>, index: int, annotations: map<string, seq<AnnotationRecord>>,
                           tempMask: Option<TempMask>)
    requires IndexInRange(|images|, index) && images != []
    ensures var r := SaveMaskEffect(images, index, annotations, tempMask);
      var key := images[index];
      && (r.error.None? <==> tempMask.Some? && tempMask.value.polygon != [])
      && (r.error.Some? ==> r.annotations[key] == EntryOf(annotations, key) && r.tempMask == tempMask)
      && (r.error.None? ==>
            && r.annotations[key][..|r.annotations[key]| - 1] == EntryOf(annotations, key)
            && r.annotations[key][|r.annotations[key]| - 1]
               == AnnotationRecord(tempMask.value.polygon, Some(BoundingBox(tempMask.value.polygon)), None)
            && r.tempMask == None)
  {
    var r := SaveMaskEffect(images, index, annotations, tempMask);
    var key := images[index];
    if r.error.None? {
      var before := EntryOf(annotations, key);
      assert (before + [SavedRecord(tempMask.value.polygon)])[..|before|] == before;
    }
  }

  /**
   * A save from a state whose pending mask, if any, has a point keeps that so,
   * never raises `ValueError`, and keeps every record without a class id.
   */
  lemma SaveMaskKeepsValid(images: seq<string>, index: int, annotations: map<string, seq<AnnotationRecord>>,
                           tempMask: Option<TempMask>)
    requires IndexInRange(|images|, index) && Unlabelled(annotations)
    requires HasPoint(tempMask)
    ensures var r := SaveMaskEffect(images, index, annotations, tempMask);
      && Unlabelled(r.annotations)
      && HasPoint(r.tempMask)
      && r.error != Some(ValueError)
  {
    SaveMaskKeepsUnlabelled(images, index, annotations, tempMask);
  }

  /** A save keeps every stored record without a class id. */
  lemma SaveMaskKeepsUnlabelled(images: seq<string>, index: int, annotations: map<string, seq<AnnotationRecord>>,
                                tempMask: Option<TempMask>)
    requires IndexInRange(|images|, index) && Unlabelled(annotations)
    ensures Unlabelled(SaveMaskEffect(images, index, annotations, tempMask).annotations)
  {
    if images != [] && tempMask.Some? && tempMask.value.polygon != [] {
      var key := images[index];
      var before := EntryOf(annotations, key);
      var v := before + [SavedRecord(tempMask.value.polygon)];
      assert forall a :: 0 <= a < |before| ==> v[a] == before[a];
    }
  }

  /** After a save on a loaded session, the current image counts as annotated, and the count never drops. */
  lemma SaveMaskCountsImage(images: seq<string>, index: int, annotations: map<string, seq<AnnotationRecord>>,
                            tempMask: Option<TempMask>)
    requires IndexInRange(|images|, index)
    ensures var after := SaveMaskEffect(images, index, annotations, tempMask).annotations;
      AnnotatedCount(images, after) >= AnnotatedCount(images, annotations)
    ensures images != [] && images[index] !in annotations ==>
      AnnotatedCount(images, SaveMaskEffect(images, index, annotations, tempMask).annotations)
        > AnnotatedCount(images, annotations)
  {
    if images != [] {
      var r := SaveMaskEffect(images, index, annotations, tempMask);
      var key := images[index];
      AnnotatedCountGrows(images, annotations, key, r.annotations[key]);
      assert r.annotations == annotations[key := r.annotations[key]];
    }
  }

  // ---------------------------------------------------------------------
  // The session
  // ---------------------------------------------------------------------

  class MainApplication {
    var images: seq<string>
    var currentImageIndex: int
    var annotations: map<string, seq<AnnotationRecord>>
    var tempMask: Option<TempMask>

    /**
     * The index stays in range, no stored record has a class id, and a
     * pending mask has a point (an empty one never gets past its preview).
     */
    ghost predicate Valid()
      reads this
    {
      && IndexInRange(|images|, currentImageIndex)
      && Unlabelled(annotations)
      && HasPoint(tempMask)
    }

    /** A new session: no images, index 0, no annotations and no pending mask. */
    constructor ()
      ensures Valid()
      ensures images == [] && currentImageIndex == 0 && annotations == map[] && tempMask == None
    {
      currentImageIndex := 0;
      images := [];
      annotations := map[];
      tempMask := None;
    }

    /** `show_image` as far as the state goes: clearing the canvas drops the pending mask. */
    method ShowImage()
      modifies this
      ensures tempMask == None
      ensures images == old(images) && currentImageIndex == old(currentImageIndex)
      ensures annotations == old(annotations)
    {
      tempMask := None;
    }

    /** A non-empty selection replaces the image list and goes back to the first image; an empty one changes nothing. */
    method UploadImages(files: seq<string>)
      requires Valid()
      modifies this
      ensures Valid()
      ensures annotations == old(annotations)
      ensures files != [] ==> images == files && currentImageIndex == 0 && tempMask == None
      ensures files == [] ==>
        images == old(images) && currentImageIndex == old(currentImageIndex) && tempMask == old(tempMask)
    {
      if files != [] {
        images := files;
        currentImageIndex := 0;
        ShowImage();
      }
    }

    /** Moves back one image unless already at the first. */
    method PrevImage()
      requires Valid()
      modifies this
      ensures Valid()
      ensures images == old(images) && annotations == old(annotations)
      ensures old(currentImageIndex) > 0 ==> currentImageIndex == old(currentImageIndex) - 1 && tempMask == None
      ensures old(currentImageIndex) <= 0 ==> currentImageIndex == old(currentImageIndex) && tempMask == old(tempMask)
    {
      if currentImageIndex > 0 {
        currentImageIndex := currentImageIndex - 1;
        ShowImage();
      }
    }

    /** Moves on one image unless already at the last. */
    method NextImage()
      requires Valid()
      modifies this
      ensures Valid()
      ensures images == old(images) && annotations == old(annotations)
      ensures old(currentImageIndex) < |images| - 1 ==>
        currentImageIndex == old(currentImageIndex) + 1 && tempMask == None
      ensures old(currentImageIndex) >= |images| - 1 ==>
        currentImageIndex == old(currentImageIndex) && tempMask == old(tempMask)
    {
      if currentImageIndex < |images| - 1 {
        currentImageIndex := currentImageIndex + 1;
        ShowImage();
      }
    }

    /**
     * Stores the pending mask under the current image, as `SaveMaskEffect`
     * describes: the image's list is created first, then the mask is read,
     * its box computed and the record appended.
     */
    method SaveMask() returns (error: Option<GuiError>)
      requires Valid()
      modifies this
      ensures Valid()
      ensures images == old(images) && currentImageIndex == old(currentImageIndex)
      ensures SaveResult(error, annotations, tempMask)
        == SaveMaskEffect(old(images), old(currentImageIndex), old(annotations), old(tempMask))
      ensures error != Some(ValueError)
    {
      ghost var effect := SaveMaskEffect(images, currentImageIndex, annotations, tempMask);
      SaveMaskKeepsValid(images, currentImageIndex, annotations, tempMask);
      if |images| == 0 {
        error := Some(IndexError);
      } else {
        var imagePath := images[currentImageIndex];
        ghost var before := EntryOf(annotations, imagePath);
        ghost var original := annotations;
        if imagePath !in annotations {
          annotations := annotations[imagePath := []];
        }
        assert annotations == original[imagePath := before];
        if tempMask.None? {
          error := Some(TypeError);
        } else if |tempMask.value.polygon| == 0 {
          error := Some(ValueError);
        } else {
          ghost var polygon := tempMask.value.polygon;
          AppendPending(imagePath);
          UpdateTwice(original, imagePath, before, before + [SavedRecord(polygon)]);
          error := None;
        }
      }
      assert SaveResult(error, annotations, tempMask) == effect;
      assert Unlabelled(effect.annotations) && HasPoint(effect.tempMask);
    }

    /** The success path of a save: the pending mask's record goes to the end of the image's list and the canvas is redrawn. */
    method AppendPending(imagePath: string)
      requires imagePath in annotations && tempMask.Some? && |tempMask.value.polygon| > 0
      modifies this
      ensures annotations == old(annotations)[imagePath := old(annotations)[imagePath] + [SavedRecord(old(tempMask).value.polygon)]]
      ensures tempMask == None
      ensures images == old(images) && currentImageIndex == old(currentImageIndex)
    {
      var polygon := tempMask.value.polygon;
      var xCoords := Xs(polygon);
      var yCoords := Ys(polygon);
      var bbox := BBox(Min(xCoords), Min(yCoords), Max(xCoords), Max(yCoords));
      var record := AnnotationRecord(polygon, Some(bbox), None);
      assert record == SavedRecord(polygon);
      annotations := annotations[imagePath := annotations[imagePath] + [record]];
      ShowImage();
    }

    /** Drops the pending mask. */
    method ClearTempMask()
      modifies this
      ensures tempMask == None
      ensures images == old(images) && currentImageIndex == old(currentImageIndex)
      ensures annotations == old(annotations)
    {
      tempMask := None;
    }

    /**
     * A click on the canvas. `masks` is what the segmentation model returns
     * for the clicked point (`None` for no result). With at least one mask,
     * the polygon of the first becomes the pending mask, once its preview is
     * drawn; an empty polygon makes the preview's polygon drawing raise
     * `TypeError` first, which leaves the pending mask as it was. Without a
     * mask the pending mask is dropped. Nothing happens while no image is loaded.
     */
    method OnImageClick(masks: Option<seq<Mask>>) returns (error: Option<GuiError>)
      requires Valid()
      modifies this
      ensures Valid()
      ensures images == old(images) && currentImageIndex == old(currentImageIndex)
      ensures annotations == old(annotations)
      ensures old(images) == [] ==> tempMask == old(tempMask) && error == None
      ensures old(images) != [] && masks.Some? && |masks.value| > 0 ==>
        var polygon := MaskPolygon(masks.value[0].contours);
        if polygon == [] then error == Some(TypeError) && tempMask == old(tempMask)
        else error == None && tempMask == Some(TempMask(polygon))
      ensures old(images) != [] && !(masks.Some? && |masks.value| > 0) ==> tempMask == None && error == None
    {
      error := None;
      if images == [] {
        return;
      }
      if masks.Some? && |masks.value| > 0 {
        var mask := masks.value[0];
        var polygon := CreateMaskAnnotation(mask);
        if polygon == [] {
          return Some(TypeError);
        }
        tempMask := Some(TempMask(polygon));
      } else {
        ClearTempMask();
      }
    }

    /** The status bar text. */
    method UpdateStatus() returns (status: string)
      ensures status == StatusText(currentImageIndex + 1, |images|, AnnotatedCount(images, annotations))
    {
      var total := |images|;
      var annotated := |Annotated(images, annotations)|;
      status := "Image " + CountText(currentImageIndex + 1, total) + " | Annotated: " + CountText(annotated, total);
    }

    /**
     * The export button: refused while nothing is stored, abandoned when no
     * directory is chosen (`exportDir` is empty), otherwise the exporter runs
     * with the default class names. `train`, `val` and `test` are the split of
     * the stored images. Since the session never assigns a class id, it fails
     * with `KeyError("class_id")` exactly when some image has a record.
     */
    method ExportDataset(exportDir: string, train: seq<string>, val: seq<string>, test: seq<string>,
                         sizeOf: string -> ImageSize, fmt: real -> string)
      returns (outcome: ExportOutcome)
      requires Valid()
      ensures annotations == map[] ==> outcome == NothingToExport
      ensures annotations != map[] && exportDir == "" ==> outcome == Cancelled
      ensures annotations != map[] && exportDir != "" ==>
        var w := Run(SplitPairs(train, val, test), SplitStep(annotations, sizeOf, fmt));
        outcome == if w.failure.None? then Exported(w.done, DataYamlFor(None)) else ExportFailed(w.done, w.failure.value)
      ensures annotations != map[] && exportDir != "" && ListsStoredImages(annotations, train + val + test) ==>
        && (outcome.ExportFailed? <==> exists p :: p in annotations && |annotations[p]| > 0)
        && (outcome.ExportFailed? ==> outcome.error == KeyError("class_id"))
    {
      if annotations == map[] {
        return NothingToExport;
      }
      if exportDir == "" {
        return Cancelled;
      }
      var written, manifest := ExportYoloDataset(annotations, None, train, val, test, sizeOf, fmt);
      if written.failure.Some? {
        outcome := ExportFailed(written.done, written.failure.value);
      } else {
        outcome := Exported(written.done, manifest.value);
      }
      if ListsStoredImages(annotations, train + val + test) {
        ExportWithoutClassIdsIff(annotations, train, val, test, sizeOf, fmt);
      }
    }
  }
}
