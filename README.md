# SmartAnnotator annotation core, in Dafny

SmartAnnotator is a desktop tool for labelling images for YOLO training. The
user uploads images, clicks an object, a segmentation model returns masks, the
first mask is traced into a polygon, and the user keeps it (stored as a record
with a bounding box under the image's path) or discards it. An export writes a
YOLO dataset: `train`/`val`/`test` directories with copied images, one label
text file per image with one line per annotation, and a `data.yaml` manifest.

This project models the bookkeeping underneath the window and the exporter:

- `annotation_processing.dfy` (module `AnnotationProcessing`): turning the
  contours traced in a mask into one flat polygon, keeping contours of three
  or more points in tracer order, and the min/max bounding box of a polygon.
  Both are loops over accumulators in the source and methods with loop
  invariants here, proved against recursive specification functions.
- `gui.dfy` (module `Gui`): the session state of `MainApplication` as a class
  with the fields `images`, `currentImageIndex`, `annotations` (a map from
  image path to the list of records) and `tempMask` (the pending polygon).
  Its methods are upload, previous/next navigation, keeping and discarding a
  mask, taking the first mask after a click, the status line and the export
  button. `save_mask` is also described by the function `SaveMaskEffect`,
  including the exceptions it raises when no image is loaded, no mask is
  pending or the polygon is empty.
- `dataset_export.dfy` (module `DatasetExport`): the exporter's class-name
  list and `nc`, the manifest paths, the copied image and label file paths,
  the normalised coordinate list, the label line, and the three nested loops
  (splits, images, annotations) as methods. An exception ends the export at
  once, keeping the label files written so far; the generic fold `Run`
  states this.
- `text.dfy` (module `Text`): the Python string operations the exporter and
  the status line use (`str` of an int, `sep.join`, `os.path.basename`,
  `os.path.splitext`), with their round trips. Neither uses `s.split`:
  `Text.Split` is the reader-side inverse of `sep.join`, with which the
  fields of a label line or of the status text are stated.
- `wrappers.dfy` (module `Wrappers`): `Option` and `Result`.

Two behaviours of the code as written are proved, not corrected:

- The window stores records with a polygon and a bbox but no class id, while
  the exporter reads `class_id` from every record. So, given a
  train/val/test split of the stored keys, an export from the window fails
  with `KeyError('class_id')` exactly when some stored image has a record (`DatasetExport.ExportWithoutClassIdsIff`,
  `Gui.MainApplication.ExportDataset`).
- The label file name depends only on the image's base name without its last
  extension. So two images of one split whose names share a stem write the
  same label file (`DatasetExport.LabelPathCollision`).

Paths are written with `/` as the separator, and relative to the export
directory.

## Model

| member | source | states |
|---|---|---|
| AnnotationProcessing.CreateMaskAnnotation | annotation_processing.py:5-12 | the loop builds exactly `MaskPolygon` of the traced contours |
| AnnotationProcessing.IsKept | annotation_processing.py:10 | the test `len(contour) >= 3` that decides whether a contour joins the polygon |
| AnnotationProcessing.MaskPolygon | annotation_processing.py:7-12 | the specification of the contour loop: the points of the contours with three or more points, in tracer order; its properties are the lemmas below |
| AnnotationProcessing.MaskPolygonIsFlattenedKept | annotation_processing.py:7-12 | the polygon is the in-order concatenation of the contours with at least three points |
| AnnotationProcessing.KeptContours | annotation_processing.py:10 | every kept contour has at least three points, and there are no more kept contours than traced ones |
| AnnotationProcessing.ShortContourDropped | annotation_processing.py:10 | a contour of fewer than three points contributes nothing, wherever it stands |
| AnnotationProcessing.LongContourKept | annotation_processing.py:10-11 | a contour of three or more points contributes all its points, in place |
| AnnotationProcessing.MaskPolygonAppend | annotation_processing.py:8-11 | the polygon of two contour lists in a row is the first list's polygon followed by the second's |
| AnnotationProcessing.FlattenAppend | annotation_processing.py:11 | concatenating two lists of contours concatenates their points |
| AnnotationProcessing.FlattenLength | annotation_processing.py:11 | a concatenation of contours has as many points as the contours together |
| AnnotationProcessing.MaskPolygonLength | annotation_processing.py:7-12 | the polygon's length is the sum of the kept contours' lengths |
| AnnotationProcessing.MaskPolygonEmpty | annotation_processing.py:7-12 | the polygon is empty exactly when every contour has fewer than three points (including no contours) |
| AnnotationProcessing.Xs | annotation_processing.py:17 | the x list has one entry per vertex, the vertex's x |
| AnnotationProcessing.Ys | annotation_processing.py:18 | the y list has one entry per vertex, the vertex's y |
| AnnotationProcessing.Min | annotation_processing.py:19-20 | `min` of a non-empty list is an element and no element is smaller |
| AnnotationProcessing.Max | annotation_processing.py:21-22 | `max` of a non-empty list is an element and no element is larger |
| AnnotationProcessing.BoundingBox | annotation_processing.py:17-23 | for a non-empty polygon, x_min <= x_max and y_min <= y_max, every vertex lies in the box, and each bound is reached by a vertex |
| AnnotationProcessing.BoundingBoxUnique | annotation_processing.py:17-23 | the box is the only box that encloses the polygon and is reached on all four sides |
| AnnotationProcessing.SameBounds | annotation_processing.py:19-22 | two enclosing boxes that are both reached on all four sides are equal |
| AnnotationProcessing.PolygonsToBBoxes | annotation_processing.py:14-24 | one box per polygon, in the same order, each the polygon's bounding box; every polygon must be non-empty |
| DatasetExport.SortedIds | dataset_export.py:26 | `sorted(class_names)`: lists every class id once, in ascending order |
| DatasetExport.AscendingCons | dataset_export.py:26 | the least id followed by an ascending listing of the rest is an ascending listing of all ids |
| DatasetExport.SetHasMin | dataset_export.py:26 | a non-empty set of class ids has a least element |
| DatasetExport.ClassNameList | dataset_export.py:25-30 | with class names given, the names in ascending id order, one per id; with none or an empty map, `['object']` |
| DatasetExport.DataYamlFor | dataset_export.py:24-38 | `names` is `ClassNameList` of the class names, `nc` is their number, and the splits point at `train/images`, `val/images` and `test/images` |
| DatasetExport.ManifestPointsAtImageDirs | dataset_export.py:32-44 | each split's copied image lands in the directory the manifest names for that split |
| DatasetExport.ImageDirsOfManifest | dataset_export.py:35-44 | the manifest's directory for the k-th split is that split's `images` directory |
| DatasetExport.ImageDest | dataset_export.py:43-44 | the copied image lies under `<split>/images/` and keeps the image's base name |
| DatasetExport.LabelPath | dataset_export.py:43-48 | the label file lies under `<split>/labels/` and is named the stem of the image's base name followed by `.txt` |
| DatasetExport.LabelPathOfFile | dataset_export.py:43-48 | the label file of `dir/stem.ext` is `<split>/labels/stem.txt` |
| DatasetExport.LabelPathCollision | dataset_export.py:43-48 | two images get the same label file exactly when their base names have the same stem |
| DatasetExport.Normalized | dataset_export.py:55 | the list as written has one value per vertex |
| DatasetExport.NormalizedKeepsHalf | dataset_export.py:55 | the list has one value per vertex: x/w for even vertices and y/h for odd ones |
| DatasetExport.NormalizedLosesCoordinates | dataset_export.py:55 | two different polygons have the same normalised list |
| DatasetExport.NormalizedPairs | dataset_export.py:55 | the intended list has two values per vertex |
| DatasetExport.NormalizedPairsRoundTrip | dataset_export.py:55 | the intended list scaled back by the image size gives every vertex back |
| DatasetExport.CentreNormalizesToHalf | dataset_export.py:55 | the centre pixel of an even-sized image normalises to 0.5 |
| DatasetExport.Denormalized | dataset_export.py:55 | scaling back gives one pixel pair per two values |
| DatasetExport.AsPairs | dataset_export.py:53 | one pixel pair per vertex |
| DatasetExport.FormatAll | dataset_export.py:56 | one formatted field per coordinate |
| DatasetExport.AnnotationLine | dataset_export.py:53-54 | reading a record's `class_id` fails exactly when it has none, with `KeyError('class_id')` |
| DatasetExport.LabelLine | dataset_export.py:56 | the line starts with `str(class_id)` and a space, and ends with a newline |
| DatasetExport.LabelLineFields | dataset_export.py:56 | a label line ends with its only newline and splits at spaces into the class id and the formatted coordinates |
| DatasetExport.Run | dataset_export.py:41-56 | the fold (with `Then`) that models each `for` loop of the export under exceptions: the bodies' outputs in order, up to and including the first body that raises, which stops the loop and is its exception; what was written before stays |
| DatasetExport.LineStep | dataset_export.py:53-56 | the annotation loop's body: one record's label line, or the `KeyError('class_id')` reading it raises |
| DatasetExport.ImageStep | dataset_export.py:43-56 | the image loop's body: `ImageResult` of one image of the split |
| DatasetExport.SplitStep | dataset_export.py:41-42 | the split loop's body: `Run` of the image step over the split's images |
| DatasetExport.SplitPairs | dataset_export.py:41 | `zip(splits, [train, val, test])` with `splits = ['train', 'val', 'test']` (line 11, the constant `Splits`): each split name with its image list, in that order |
| DatasetExport.RunPrefix | dataset_export.py:41-56 | running the loop one element further continues from the prefix's result |
| DatasetExport.RunStopsAt | dataset_export.py:41-56 | once an element raises, the rest of the loop changes nothing |
| DatasetExport.FailureSticks | dataset_export.py:41-56 | after an exception, further elements add nothing |
| DatasetExport.RunThree | dataset_export.py:41 | the split loop runs the three splits in order |
| DatasetExport.RunSucceedsIff | dataset_export.py:41-56 | the loop completes exactly when no element raises |
| DatasetExport.RunFailsWith | dataset_export.py:41-56 | if every raising element raises the same error, a failing loop fails with it |
| DatasetExport.RunOneEach | dataset_export.py:52-56 | when each element writes one item, the loop writes one per element, in order |
| DatasetExport.WriteLabelLines | dataset_export.py:52-56 | the annotation loop writes `Run` of the label-line step over the records |
| DatasetExport.LabelLinesComplete | dataset_export.py:52-56 | the annotation loop completes exactly when every record has a class id, and then writes one line per record, in order, with its class id and normalised list |
| DatasetExport.LabelFileLineCount | dataset_export.py:52-56 | a completed label file holds exactly one newline per annotation |
| DatasetExport.ExportImage | dataset_export.py:42-56 | one image: its label file, or `KeyError` of its path when it has no entry (after the file is opened), or the label loop's `KeyError('class_id')` |
| DatasetExport.ImageResult | dataset_export.py:42-56 | one label file is opened for the image, in its split; an image without an entry raises `KeyError` of its path; the image completes exactly when it has an entry whose records all have class ids |
| DatasetExport.ImageIteration | dataset_export.py:42-56 | one more image extends the image loop's run, and a raising image ends it |
| DatasetExport.ExportSplit | dataset_export.py:42-56 | the image loop of one split writes `Run` of the image step over its images |
| DatasetExport.ExportYoloDataset | dataset_export.py:9-60 | the export writes `Run` of the split step over train, val, test in that order, and the manifest only when nothing raised |
| DatasetExport.SplitExportComplete | dataset_export.py:42-56 | a split completes exactly when each of its images has an entry whose records all have class ids; then one label file per image, in order, at the image's copy and label paths, with one line per record |
| DatasetExport.ExportComplete | dataset_export.py:41-56 | the export completes exactly when all three splits' images are exportable, and then writes the train, val and test files in that order |
| DatasetExport.RunSplits | dataset_export.py:41 | the split loop is the train run, then the val run, then the test run |
| DatasetExport.SplitSucceedsIff | dataset_export.py:42-56 | a split's loop completes exactly when its images are exportable |
| DatasetExport.ExportableAppend | dataset_export.py:41-42 | images are exportable together exactly when each part is |
| DatasetExport.SplitFailsOnClassId | dataset_export.py:52-54 | with stored images and no class ids, a failing split fails with `KeyError('class_id')` |
| DatasetExport.ExportWithoutClassIdsFails | dataset_export.py:52-54 | with no class ids, an export that meets a record fails with `KeyError('class_id')` |
| DatasetExport.ExportWithoutClassIdsIff | dataset_export.py:52-54 | with no class ids and the splits covering the stored images, the export fails exactly when some image has a record, and with `KeyError('class_id')` |
| Gui.MainApplication.Valid | gui.py:11-18 | the session invariant: the index is 0 or names an image, no record has a class id, and a pending mask has at least one point |
| Gui.MainApplication.constructor | gui.py:11-18 | no images, index 0, no annotations, no pending mask |
| Gui.MainApplication.ShowImage | gui.py:60-63 | `clear_canvas` (gui.py lines 220-222) drops the pending mask and changes nothing else |
| Gui.MainApplication.UploadImages | gui.py:53-58 | a non-empty selection replaces the images, resets the index to 0 and drops the pending mask; an empty one changes nothing |
| Gui.MainApplication.PrevImage | gui.py:192-195 | the index goes down by one only when it is above 0, else nothing changes; the index stays in range |
| Gui.MainApplication.NextImage | gui.py:197-200 | the index goes up by one only when it is below the last image, else nothing changes; the index stays in range |
| Gui.EntryOf | gui.py:171-172 | the image's list, or the empty list `save_mask` creates for an image without one |
| Gui.SavedRecord | gui.py:175-182 | the stored record keeps the polygon, has no class id, and its bbox encloses the polygon and is reached on all four sides |
| Gui.SaveMaskEffect | gui.py:169-185 | no image loaded: `IndexError` and nothing changes; no pending mask: `TypeError`; an empty polygon: `ValueError`; the save succeeds exactly when an image is loaded and a pending mask has a point |
| Gui.SaveMaskKeepsValid | gui.py:169-185 | from a state whose pending mask has a point, a save keeps every record without a class id, leaves any pending mask with a point, and never raises `ValueError` |
| Gui.MainApplication.SaveMask | gui.py:169-185 | the new annotations, pending mask and raised exception are `SaveMaskEffect` of the old state; the index stays in range, no record has a class id, and `ValueError` is never raised |
| Gui.MainApplication.AppendPending | gui.py:174-185 | the pending polygon's record, with its min/max box, goes after the image's earlier records, the pending mask is dropped and nothing else changes |
| Gui.SaveMaskTouchesOneKey | gui.py:170-182 | only the current image's entry changes, and it exists afterwards |
| Gui.SaveMaskAppendsOne | gui.py:170-184 | with a non-empty pending polygon, one record (polygon, its min/max box, no class id) is appended after the earlier ones and the pending mask is dropped; without a mask or with an empty polygon, the entry is only created and an exception raised |
| Gui.SaveMaskKeepsUnlabelled | gui.py:179-182 | saving never adds a class id |
| Gui.SaveMaskCountsImage | gui.py:170-172 | saving never lowers the annotated count, and raises it when the current image had no entry |
| Gui.MainApplication.ClearTempMask | gui.py:187-190 | the pending mask is dropped and nothing else changes |
| Gui.MainApplication.OnImageClick | gui.py:94-140 | with no images nothing changes; with masks, the first mask's polygon becomes pending when it has a point, and an empty one raises `TypeError` while its preview is drawn, leaving the pending mask as it was; with no mask the pending mask is dropped |
| Gui.Annotated | gui.py:204 | the images of the list that have an entry, no more than the list holds |
| Gui.AnnotatedCount | gui.py:204 | the annotated count is at most the number of images |
| Gui.AnnotatedCountBound | gui.py:203-204 | the annotated count is at most the total, and equal to it exactly when every image has an entry |
| Gui.AnnotatedCountZero | gui.py:204 | the annotated count is 0 exactly when no listed image has an entry |
| Gui.AnnotatedCountGrows | gui.py:204 | adding an entry never lowers the count, and raises it for a listed image that had none |
| Gui.MainApplication.UpdateStatus | gui.py:202-205 | the status text shows the 1-based position, the total and the annotated count |
| Gui.CountText | gui.py:205 | `a/b` starts with `str(a)` and a slash, and holds no space |
| Gui.StatusText | gui.py:205 | the text starts with `Image `, the position count and a space |
| Gui.StatusTextFields | gui.py:205 | the status text has five space-separated fields, the second and fifth being `a/b` counts of the right numbers |
| Gui.CountTextFields | gui.py:205 | a count `a/b` splits back into its two numbers and holds no space |
| Gui.StatusTextDetermines | gui.py:205 | two equal status texts show the same position, total and annotated count |
| Gui.MainApplication.ExportDataset | gui.py:207-218 | no annotations: refused; no directory: nothing happens; else the export's result, which, when the splits cover the stored images, fails exactly when some image has a record, with `KeyError('class_id')` |
| Text.IntToString | gui.py:205 | `str(n)`: non-empty, digits with an optional leading minus |
| Text.NatToString | dataset_export.py:56 | the decimal digits of a natural number: non-empty, and no leading zero for a positive number |
| Text.NatToStringRoundTrip | dataset_export.py:56 | the digits of a natural number read back to it |
| Text.IntToStringRoundTrip | dataset_export.py:56 | `str(n)` of an int reads back to n |
| Text.IntToStringHasNoSeparator | dataset_export.py:56 | `str(n)` holds no space, newline or slash |
| Text.Split | dataset_export.py:56 | the reader-side inverse of `sep.join`, as `s.split(sep)` does it: never empty, and no part holds the separator |
| Text.Join | dataset_export.py:56 | `sep.join(parts)`: starts with the first part, followed by the separator when there are more parts |
| Text.SplitJoin | dataset_export.py:56 | splitting a join of separator-free parts gives the parts back |
| Text.JoinSplit | dataset_export.py:56 | joining a split gives the string back |
| Text.JoinExcludes | dataset_export.py:56 | a character in no part, other than the separator, is not in the join |
| Text.CountAppend | dataset_export.py:56 | characters of a concatenation are counted part by part |
| Text.CountAbsent | dataset_export.py:56 | an absent character counts 0 |
| Text.CountLines | dataset_export.py:56 | lines that each end with their only newline give one newline per line |
| Text.LastIndex | dataset_export.py:43 | the last index of a character, or -1 when absent |
| Text.Basename | dataset_export.py:43 | `os.path.basename`: the suffix after the last `/`, holding no `/` |
| Text.BasenameOfJoin | dataset_export.py:43-44 | the base name of `dir/name` is `name` |
| Text.AllDotsIff | dataset_export.py:48 | a string is all dots exactly when each character is a dot |
| Text.SplitExt | dataset_export.py:48 | `os.path.splitext`; its properties are the three lemmas below |
| Text.SplitExtJoin | dataset_export.py:48 | `os.path.splitext`: the stem and the extension together give the path |
| Text.SplitExtShape | dataset_export.py:48 | the extension is empty, or a dot followed by no dot and no slash |
| Text.SplitExtOfName | dataset_export.py:48 | `stem.ext` splits into `stem` and `.ext` when the stem has a character other than a dot |

## Left out

- The segmentation model, its loading and device choice, and the click-to-image
  scale factors: `OnImageClick` takes the model's answer (no masks, or a list)
  as a parameter.
- `cv2.findContours`: a mask is given by the contours traced in it, in the
  tracer's order; the 1-point `squeeze` shape only occurs below three points,
  which are dropped anyway.
- All drawing, dialogs, previews and thumbnails. The keep/discard dialog is the
  caller choosing `SaveMask` or `ClearTempMask`; the directory dialog is the
  `exportDir` parameter, empty when cancelled; message boxes are the
  `ExportOutcome` value.
- `random.shuffle` and `train_test_split`: the three splits are parameters of
  `ExportYoloDataset` and `ExportDataset`. Their sizes, their order and the
  `ValueError` `train_test_split` raises for very small datasets are not
  modelled. The shuffle at dataset_export.py:18 is unseeded, so two exports
  of the same session can split the images differently: the export is not
  reproducible, and the model claims no determinism of the split.
- Directory creation, image copying, opening images for their size, file
  writes and the YAML dump: image sizes are the `sizeOf` parameter, a written
  label file is a `LabelFile` value (split, image, lines) whose paths are
  `CopyPath()` and `TextPath()`, and the manifest is returned as a value.
- The export directory prefix of every path, and platform path rules: paths
  use `/` and are relative to the export directory.
- The `:.6f` float formatting: it is the `fmt` parameter, assumed to produce
  no space or newline where a lemma needs that.
- Float arithmetic: the normalisation uses exact `real` division.
- Pillow's `ImageDraw.polygon` is not part of this model: `OnImageClick`
  takes it to raise `TypeError` for an empty point list, before `temp_mask` is
  set. So `save_mask`'s `ValueError` for an empty polygon cannot be reached
  from a click; `SaveMaskEffect` still describes it.
- Gui.MainApplication.Valid: the invariant keeps the index in range, records
  without a class id and a pending mask with a point; that every record's bbox is its polygon's box
  is stated per call by `SaveMaskAppendsOne`, not kept as an invariant.
- Gui.MainApplication.ExportDataset: the export runs with no class names, as
  the button does; `ExportYoloDataset` takes class names for other callers.

## Findings

| source | as written | input that shows it | evidently intended | confidence | as-written member | corrected member |
|---|---|---|---|---|---|---|
| dataset_export.py:55 | `enumerate(poly)` yields one `(x, y)` vertex per index, and each vertex contributes one value: x/w when its index is even, y/h when odd | image 100x100, polygons `[(10,20),(30,40),(50,60)]` and `[(10,99),(77,40),(50,0)]` both give `[0.1, 0.4, 0.5]` | YOLO segmentation labels list x/w and y/h for every vertex, two values per vertex | high; not executed | DatasetExport.NormalizedLosesCoordinates | DatasetExport.NormalizedPairsRoundTrip |

The label lines of the export model are built from the list as written
(`DatasetExport.Normalized`), since that is what the exporter writes;
`DatasetExport.NormalizedPairs` is the corrected list, whose round trip back
to the vertices is proved.
