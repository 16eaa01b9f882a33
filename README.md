# Pixel-classifier measurements and AWT area ROIs

This project is a Dafny model of two parts of QuPath.

**PixelClassificationMeasurementManager** measures how much of a region of interest (ROI) each output channel of a pixel classifier covers.
- It fetches every tile the ROI needs. It gives up if any tile is missing.
- For each tile it draws the ROI into a reused binary mask buffer. It then counts the masked pixels by class:
  - for a classification image, the class is the pixel's class index;
  - for a probability image, the class is the first channel with the largest value.
- It turns the counts into a measurement list: a percentage and an area per non-transparent channel, plus two totals.
- It caches that list per ROI.
- The first list it builds, from all-zero counts, freezes the list of measurement names.

**AWTAreaROI** is an area ROI backed by a path. It covers:
- splitting the path into closed vertex lists;
- flattening it to points;
- rebuilding a path from vertex lists;
- lazily computed shape statistics, with a bounding-box fallback for the centroid;
- translation, where a zero offset returns the same object;
- duplication;
- the equal-pixel-size shortcut for the scaled area and perimeter.

Modules:
- `Common`: option and result types, points, and a double that may be NaN (`Value`).
- `AreaPaths`: path segment streams, on values. Covers getVertices, getLinearPathPoints, the path rebuilt from vertex lists, and translation.
- `AwtAreaRoi`: the `AWTAreaROI` class. Its statistics field is set on first use.
- `ClassifierMeasurements`: the measurement names and the lists updateMeasurements builds. Specified by functions; its two loops are methods.
- `PixelCounting`: the mask buffer's contents for a tile, and the per-pixel counting. Specified by prefix folds.
- `MeasurementManager`: the `Manager` class, with its name list, its ROI cache and the mask buffer as an `array2<bool>`. Its methods are proved equal to the functions of the other modules.

Behaviour of the code worth knowing:
- The mask buffer is cleared only over the tile's rectangle, and only for line and area ROIs. Pixels outside it keep earlier marks.
- For a point ROI nothing is cleared. Marks left by earlier tiles stay in the buffer (`PointMaskKeepsMarks`).
- Output types other than classification, probability and feature yield all-zero counts after the first tile's mask is drawn (`DefaultBranchCountsNothing`).

## Model

| member | source | states |
|---|---|---|
| AreaPaths.SplitStep | qupath-core/src/main/java/qupath/lib/roi/AWTAreaROI.java:277-294 | definition: one turn of the loop: MOVETO starts the list [p], LINETO appends p, CLOSE passes the list through close() and emits the result, which stays current; a LINETO or CLOSE with no list and any curve are errors |
| AreaPaths.Split | qupath-core/src/main/java/qupath/lib/roi/AWTAreaROI.java:277-294 | definition: the loop over the whole segment stream, stopping at the first error |
| AreaPaths.VerticesOf | qupath-core/src/main/java/qupath/lib/roi/AWTAreaROI.java:271-296 | definition: the emitted vertex lists of the stream from an empty start, or its error |
| AreaPaths.KeepOpen | qupath-core/src/main/java/qupath/lib/roi/AWTAreaROI.java:286-287 | definition: the reading of close() that leaves the list as it is |
| AreaPaths.RepeatFirst | qupath-core/src/main/java/qupath/lib/roi/AWTAreaROI.java:286-287 | definition: the reading of close() that appends the first point again |
| AreaPaths.GetVertices | qupath-core/src/main/java/qupath/lib/roi/AWTAreaROI.java:271-296 | the loop returns exactly the splitter's result: MOVETO starts a fresh vertex list, LINETO extends it, CLOSE passes it through close() and emits it; curves and a LINETO/CLOSE with no list are the two errors |
| AreaPaths.VerticesOkIff | qupath-core/src/main/java/qupath/lib/roi/AWTAreaROI.java:277-293 | getVertices succeeds if and only if every segment is MOVETO, LINETO or CLOSE and a non-empty stream starts with MOVETO |
| AreaPaths.SplitOkIff | qupath-core/src/main/java/qupath/lib/roi/AWTAreaROI.java:277-293 | from any splitter state, splitting succeeds iff the stream is linear and (with no current list) begins with MOVETO |
| AreaPaths.SplitCountsCloses | qupath-core/src/main/java/qupath/lib/roi/AWTAreaROI.java:285-289 | each CLOSE adds exactly one vertex list, and the lists already emitted stay a prefix of the result |
| AreaPaths.VerticesCountIsCloseCount | qupath-core/src/main/java/qupath/lib/roi/AWTAreaROI.java:285-289 | getVertices returns one vertex list per CLOSE segment |
| AreaPaths.SplitAppend | qupath-core/src/main/java/qupath/lib/roi/AWTAreaROI.java:277-294 | splitting a concatenation equals splitting the second part from the state the first part leaves, errors included |
| AreaPaths.TrailingUnclosedDropped | qupath-core/src/main/java/qupath/lib/roi/AWTAreaROI.java:277-295 | segments after the last CLOSE contribute no vertex list |
| AreaPaths.PointsOf | qupath-core/src/main/java/qupath/lib/roi/AWTAreaROI.java:246-267 | definition: the MOVETO and LINETO end points of the stream, in order; CLOSE adds nothing |
| AreaPaths.GetLinearPathPoints | qupath-core/src/main/java/qupath/lib/roi/AWTAreaROI.java:246-267 | succeeds iff the stream has no curve; the points are then the MOVETO and LINETO points in order, with nothing added for CLOSE |
| AreaPaths.PointsOfAppend | qupath-core/src/main/java/qupath/lib/roi/AWTAreaROI.java:249-265 | the flattened points of a concatenation are the concatenation of the flattened points |
| AreaPaths.Lines | qupath-core/src/main/java/qupath/lib/roi/AWTAreaROI.java:75-77 | definition: one LINETO per point, in order |
| AreaPaths.SubPath | qupath-core/src/main/java/qupath/lib/roi/AWTAreaROI.java:72-78 | definition: nothing for an empty list; otherwise MOVETO to its first point, LINETO to each later point, then CLOSE |
| AreaPaths.PathOf | qupath-core/src/main/java/qupath/lib/roi/AWTAreaROI.java:68-80 | definition: the sub-paths of the lists, concatenated in order |
| AreaPaths.NonEmpty | qupath-core/src/main/java/qupath/lib/roi/AWTAreaROI.java:71-73 | definition: the lists the constructor does not skip, in order |
| AreaPaths.Flatten | qupath-core/src/main/java/qupath/lib/roi/AWTAreaROI.java:68-80 | definition: all points of the lists, concatenated in order |
| AreaPaths.CloseAll | qupath-core/src/main/java/qupath/lib/roi/AWTAreaROI.java:285-288 | definition: each list passed through close(), in order |
| AreaPaths.BuildPath | qupath-core/src/main/java/qupath/lib/roi/AWTAreaROI.java:70-79 | the loop builds MOVETO, LINETOs, CLOSE per non-empty vertex list, skipping empty lists |
| AreaPaths.LinearPointsOfPathOf | qupath-core/src/main/java/qupath/lib/roi/AWTAreaROI.java:70-79 | the rebuilt path has no curve and its points are all vertex lists concatenated |
| AreaPaths.VerticesOfPathOf | qupath-core/src/main/java/qupath/lib/roi/AWTAreaROI.java:68-80 | splitting the rebuilt path never throws and gives back the non-empty vertex lists, in order, each as close() leaves it (round trip) |
| AreaPaths.VerticesOfPathOfKeepOpen | qupath-core/src/main/java/qupath/lib/roi/AWTAreaROI.java:68-80 | when close() leaves a list unchanged, the rebuilt path splits back into exactly the non-empty vertex lists |
| AreaPaths.CandidateClosersTranslate | qupath-core/src/main/java/qupath/lib/roi/AWTAreaROI.java:286-287 | both readings of close(), leaving the list as it is and appending the first point again, commute with translation |
| AreaPaths.VerticesOkTranslate | qupath-core/src/main/java/qupath/lib/roi/AWTAreaROI.java:181-182 | whatever close() does, getVertices of a translated path throws exactly when it throws on the original |
| AreaPaths.TranslatePoint | qupath-core/src/main/java/qupath/lib/roi/AWTAreaROI.java:181-182 | definition: the point shifted by (dx, dy) |
| AreaPaths.TranslateSegment | qupath-core/src/main/java/qupath/lib/roi/AWTAreaROI.java:181-182 | definition: the segment with every point, control points included, shifted by (dx, dy) |
| AreaPaths.TranslatePath | qupath-core/src/main/java/qupath/lib/roi/AWTAreaROI.java:181-182 | definition: every segment shifted by (dx, dy) |
| AreaPaths.TranslateInverse | qupath-core/src/main/java/qupath/lib/roi/AWTAreaROI.java:176-183 | translating by (dx, dy) and then by (-dx, -dy) restores the path |
| AreaPaths.TranslateZero | qupath-core/src/main/java/qupath/lib/roi/AWTAreaROI.java:178-179 | translating by (0, 0) leaves the path unchanged; the shortcut keeps this ROI's vertex lists, which the general case would rebuild with getVertices |
| AreaPaths.SplitTranslate | qupath-core/src/main/java/qupath/lib/roi/AWTAreaROI.java:277-294 | for a close() that commutes with translation, splitting commutes with translation from any splitter state, errors included |
| AreaPaths.VerticesOfTranslate | qupath-core/src/main/java/qupath/lib/roi/AWTAreaROI.java:181-182 | for a close() that commutes with translation, the vertex lists of a translated path are the translated vertex lists, and the errors are the same |
| AwtAreaRoi.CentroidX | qupath-core/src/main/java/qupath/lib/roi/AWTAreaROI.java:131-140 | the statistics' centroid when it is a number; otherwise the point equidistant from both vertical bounds, inside them |
| AwtAreaRoi.CentroidY | qupath-core/src/main/java/qupath/lib/roi/AWTAreaROI.java:148-157 | the same for y and the horizontal bounds |
| AwtAreaRoi.AWTAreaROI.FromShape | qupath-core/src/main/java/qupath/lib/roi/AWTAreaROI.java:63-66 | the vertex lists are getVertices of the shape; the statistics are not yet computed |
| AwtAreaRoi.AWTAreaROI.FromAreaRoi | qupath-core/src/main/java/qupath/lib/roi/AWTAreaROI.java:68-80 | keeps the vertex lists; the new path is linear, splits back into the non-empty lists as close() leaves them, and flattens to their points |
| AwtAreaRoi.AWTAreaROI.CalculateShapeMeasurements | qupath-core/src/main/java/qupath/lib/roi/AWTAreaROI.java:169-172 | sets the statistics to those of the path; counted as one computation |
| AwtAreaRoi.AWTAreaROI.EnsureStats | qupath-core/src/main/java/qupath/lib/roi/AWTAreaROI.java:91-92 | afterwards the statistics are present; they are computed only when absent, and at most once over the object's life |
| AwtAreaRoi.AWTAreaROI.NVertices | qupath-core/src/main/java/qupath/lib/roi/AWTAreaROI.java:89-94 | the path's vertex count, statistics computed lazily |
| AwtAreaRoi.AWTAreaROI.GetArea | qupath-core/src/main/java/qupath/lib/roi/AWTAreaROI.java:101-106 | the path's area, statistics computed lazily |
| AwtAreaRoi.AWTAreaROI.GetPerimeter | qupath-core/src/main/java/qupath/lib/roi/AWTAreaROI.java:108-113 | the path's perimeter, statistics computed lazily |
| AwtAreaRoi.AWTAreaROI.GetBoundsX | qupath-core/src/main/java/qupath/lib/roi/AWTAreaROI.java:201-206 | the left bound, statistics computed lazily |
| AwtAreaRoi.AWTAreaROI.GetBoundsY | qupath-core/src/main/java/qupath/lib/roi/AWTAreaROI.java:209-214 | the top bound, statistics computed lazily |
| AwtAreaRoi.AWTAreaROI.GetBoundsWidth | qupath-core/src/main/java/qupath/lib/roi/AWTAreaROI.java:217-222 | the bounds' width, statistics computed lazily |
| AwtAreaRoi.AWTAreaROI.GetBoundsHeight | qupath-core/src/main/java/qupath/lib/roi/AWTAreaROI.java:225-230 | the bounds' height, statistics computed lazily |
| AwtAreaRoi.AWTAreaROI.GetCentroidX | qupath-core/src/main/java/qupath/lib/roi/AWTAreaROI.java:131-140 | the centroid with its bounding-box fallback (CentroidX), statistics computed lazily |
| AwtAreaRoi.AWTAreaROI.GetCentroidY | qupath-core/src/main/java/qupath/lib/roi/AWTAreaROI.java:148-157 | the same for y (CentroidY) |
| AwtAreaRoi.AWTAreaROI.GetScaledArea | qupath-core/src/main/java/qupath/lib/roi/AWTAreaROI.java:185-191 | for pixel sizes equal within 0.0001, the unscaled area times both sizes; otherwise the area of the scaled statistics |
| AwtAreaRoi.AWTAreaROI.GetScaledPerimeter | qupath-core/src/main/java/qupath/lib/roi/AWTAreaROI.java:193-199 | for equal pixel sizes, the perimeter times their mean; otherwise the perimeter of the scaled statistics |
| AwtAreaRoi.AWTAreaROI.Translate | qupath-core/src/main/java/qupath/lib/roi/AWTAreaROI.java:175-183 | a zero offset returns this very object; otherwise a fresh ROI on the same plane whose path is the translated path and whose vertex lists are getVertices of it, which are the translated lists when close() commutes with translation |
| AwtAreaRoi.AWTAreaROI.Duplicate | qupath-core/src/main/java/qupath/lib/roi/AWTAreaROI.java:164-167 | a fresh ROI with the same path and plane, the vertex lists getVertices gives for that path, and no statistics yet |
| AwtAreaRoi.AWTAreaROI.GetPolygonPoints | qupath-core/src/main/java/qupath/lib/roi/AWTAreaROI.java:232-237 | the flattened points of the path |
| AwtAreaRoi.CreateFromShape | qupath-core/src/main/java/qupath/lib/roi/AWTAreaROI.java:63-66 | the throwing constructor: it succeeds iff getVertices does, and the exception is getVertices' error |
| AwtAreaRoi.TranslateRoundTripStats | qupath-core/src/main/java/qupath/lib/roi/AWTAreaROI.java:176-183 | a ROI translated away and back has exactly the original statistics |
| Common.Mul | qupath-gui-fx/src/main/java/qupath/lib/gui/models/PixelClassificationMeasurementManager.java:340 | a product of doubles is a number iff both factors are, and then it is their product |
| ClassifierMeasurements.PercentName | qupath-gui-fx/src/main/java/qupath/lib/gui/models/PixelClassificationMeasurementManager.java:331 | definition: "Classifier: " then the channel name then " %" |
| ClassifierMeasurements.AreaName | qupath-gui-fx/src/main/java/qupath/lib/gui/models/PixelClassificationMeasurementManager.java:332 | definition: "Classifier: " then the channel name, " area " and the units |
| ClassifierMeasurements.TotalAnnotatedName | qupath-gui-fx/src/main/java/qupath/lib/gui/models/PixelClassificationMeasurementManager.java:346 | definition: "Classifier: Total annotated area " then the units |
| ClassifierMeasurements.TotalQuantifiedName | qupath-gui-fx/src/main/java/qupath/lib/gui/models/PixelClassificationMeasurementManager.java:347 | definition: "Classifier: Total quantified area " then the units |
| ClassifierMeasurements.NonTransparentTotal | qupath-gui-fx/src/main/java/qupath/lib/gui/models/PixelClassificationMeasurementManager.java:317-324 | definition: the sum of the counts of the channels that are not transparent |
| ClassifierMeasurements.ChannelNames | qupath-gui-fx/src/main/java/qupath/lib/gui/models/PixelClassificationMeasurementManager.java:326-336 | definition: the percentage name then the area name of each non-transparent channel, in channel order, whatever the pixel area |
| ClassifierMeasurements.MeasurementNamesFor | qupath-gui-fx/src/main/java/qupath/lib/gui/models/PixelClassificationMeasurementManager.java:306-352 | definition: the channel names, then the two total names only when the pixel area is a number |
| ClassifierMeasurements.Percent | qupath-gui-fx/src/main/java/qupath/lib/gui/models/PixelClassificationMeasurementManager.java:338 | definition: count / totalWithoutIgnored * 100, and NaN when the divisor is 0 (Java's 0.0 / 0) |
| ClassifierMeasurements.ChannelBlock | qupath-gui-fx/src/main/java/qupath/lib/gui/models/PixelClassificationMeasurementManager.java:327-342 | definition: nothing for a transparent channel; otherwise its percentage, then its area count * pixelArea when the pixel area is a number |
| ClassifierMeasurements.ChannelEntries | qupath-gui-fx/src/main/java/qupath/lib/gui/models/PixelClassificationMeasurementManager.java:326-343 | definition: the channel blocks, in channel order |
| ClassifierMeasurements.TotalEntries | qupath-gui-fx/src/main/java/qupath/lib/gui/models/PixelClassificationMeasurementManager.java:345-355 | definition: nothing when the pixel area is NaN; otherwise the annotated total (totalWithoutIgnored * pixelArea), then the quantified total (total * pixelArea) |
| ClassifierMeasurements.MeasurementsFor | qupath-gui-fx/src/main/java/qupath/lib/gui/models/PixelClassificationMeasurementManager.java:304-358 | definition: the list updateMeasurements builds: the channel entries, then the totals |
| ClassifierMeasurements.Lookup | qupath-gui-fx/src/main/java/qupath/lib/gui/models/PixelClassificationMeasurementManager.java:126 | the name is absent iff no entry has it; a found value is stored under that name |
| ClassifierMeasurements.ValueOf | qupath-gui-fx/src/main/java/qupath/lib/gui/models/PixelClassificationMeasurementManager.java:126 | the value stored under the name, or NaN when the list has no such name |
| ClassifierMeasurements.TotalWithoutIgnored | qupath-gui-fx/src/main/java/qupath/lib/gui/models/PixelClassificationMeasurementManager.java:317-324 | the loop sums exactly the counts of the non-transparent channels |
| ClassifierMeasurements.BuildChannelEntries | qupath-gui-fx/src/main/java/qupath/lib/gui/models/PixelClassificationMeasurementManager.java:326-343 | the loop builds the per-channel measurements and the two names per non-transparent channel, in channel order |
| ClassifierMeasurements.NonTransparentAtMostSum | qupath-gui-fx/src/main/java/qupath/lib/gui/models/PixelClassificationMeasurementManager.java:317-324 | for non-negative counts the total without ignored channels lies between 0 and the sum, and equals the sum when no channel is transparent |
| ClassifierMeasurements.PercentTotalIsShare | qupath-gui-fx/src/main/java/qupath/lib/gui/models/PixelClassificationMeasurementManager.java:338 | the percentages of all non-transparent channels add up to their share of the divisor, times 100 |
| ClassifierMeasurements.PercentagesSumTo100 | qupath-gui-fx/src/main/java/qupath/lib/gui/models/PixelClassificationMeasurementManager.java:317-338 | whenever some non-transparent pixel was counted, the channel percentages add up to exactly 100 |
| ClassifierMeasurements.ChannelMeasurementValues | qupath-gui-fx/src/main/java/qupath/lib/gui/models/PixelClassificationMeasurementManager.java:331-341 | every non-transparent channel has its percentage in the list and, with a known pixel area, its count times the pixel area |
| ClassifierMeasurements.TotalAreaValues | qupath-gui-fx/src/main/java/qupath/lib/gui/models/PixelClassificationMeasurementManager.java:345-355 | with a known pixel area the list holds "Total annotated area" = non-transparent total times pixel area and "Total quantified area" = total times pixel area |
| ClassifierMeasurements.MeasurementNamesMatch | qupath-gui-fx/src/main/java/qupath/lib/gui/models/PixelClassificationMeasurementManager.java:306-355 | every list has exactly the frozen names in order when the pixel area is known, and only the percentage names when it is NaN, whatever the counts |
| ClassifierMeasurements.TotalsAgree | qupath-gui-fx/src/main/java/qupath/lib/gui/models/PixelClassificationMeasurementManager.java:345-355 | with no transparent channel and a balanced histogram, both totals carry the same area |
| ClassifierMeasurements.NoCountsNoPercentages | qupath-gui-fx/src/main/java/qupath/lib/gui/models/PixelClassificationMeasurementManager.java:338-341 | all-zero counts give NaN percentages (0 / 0) and, with a known pixel area, zero areas |
| PixelCounting.PointPixel | qupath-gui-fx/src/main/java/qupath/lib/gui/models/PixelClassificationMeasurementManager.java:231-232 | definition: the truncated tile-relative pixel of a point, at the tile's downsample |
| PixelCounting.PointPixels | qupath-gui-fx/src/main/java/qupath/lib/gui/models/PixelClassificationMeasurementManager.java:230-235 | definition: the pixels of the points that fall inside the buffer |
| PixelCounting.Trunc | qupath-gui-fx/src/main/java/qupath/lib/gui/models/PixelClassificationMeasurementManager.java:231-232 | the (int) cast rounds toward zero: the result is within one of the argument, never further from zero |
| PixelCounting.PointPixelsExact | qupath-gui-fx/src/main/java/qupath/lib/gui/models/PixelClassificationMeasurementManager.java:230-235 | a pixel is marked iff it is inside the buffer and some point truncates to it |
| PixelCounting.PointJustOutsideLandsOnEdge | qupath-gui-fx/src/main/java/qupath/lib/gui/models/PixelClassificationMeasurementManager.java:231-233 | a point less than one tile pixel above and left of the tile is cast to pixel (0, 0) and marked |
| PixelCounting.Realloc | qupath-gui-fx/src/main/java/qupath/lib/gui/models/PixelClassificationMeasurementManager.java:207-210 | the buffer is at least the tile's size; it is kept when already big enough, and otherwise replaced by a blank one of exactly the tile's size |
| PixelCounting.DrawnShape | qupath-gui-fx/src/main/java/qupath/lib/gui/models/PixelClassificationMeasurementManager.java:213-228 | definition: the tile rectangle blacked out, then the rendered pixels that fit in the buffer set; the rest of the buffer unchanged |
| PixelCounting.MarkedPoints | qupath-gui-fx/src/main/java/qupath/lib/gui/models/PixelClassificationMeasurementManager.java:229-236 | definition: the points' pixels set, nothing cleared |
| PixelCounting.PrepareMask | qupath-gui-fx/src/main/java/qupath/lib/gui/models/PixelClassificationMeasurementManager.java:207-236 | definition: reuse or replace the buffer, then draw a line or area ROI over the tile, or mark a point ROI's points |
| PixelCounting.PrepareMaskInBounds | qupath-gui-fx/src/main/java/qupath/lib/gui/models/PixelClassificationMeasurementManager.java:207-236 | preparing a tile's mask never sets a pixel outside the buffer |
| PixelCounting.AreaMaskIsRendered | qupath-gui-fx/src/main/java/qupath/lib/gui/models/PixelClassificationMeasurementManager.java:213-228 | for a line or area ROI, inside the tile the mask is exactly the rendered shape |
| PixelCounting.PointMaskKeepsMarks | qupath-gui-fx/src/main/java/qupath/lib/gui/models/PixelClassificationMeasurementManager.java:229-236 | for a point ROI, every pixel already set stays set; only the points' pixels are added |
| PixelCounting.FirstMax | qupath-gui-fx/src/main/java/qupath/lib/gui/models/PixelClassificationMeasurementManager.java:277-285 | a channel whose sample is the largest, and strictly larger than every earlier channel's (the first maximum) |
| PixelCounting.MaxChannel | qupath-gui-fx/src/main/java/qupath/lib/gui/models/PixelClassificationMeasurementManager.java:277-285 | the argmax loop returns that first maximum |
| PixelCounting.PixelClass | qupath-gui-fx/src/main/java/qupath/lib/gui/models/PixelClassificationMeasurementManager.java:244-287 | a pixel is counted iff its class index is a valid channel (classification), or iff there is a channel and a band (probability); the channel is the class index, or the first channel holding the largest sample among the first min(channels, bands) |
| PixelCounting.Zeros | qupath-gui-fx/src/main/java/qupath/lib/gui/models/PixelClassificationMeasurementManager.java:199 | a fresh counts array: every entry zero, sum zero |
| PixelCounting.CountTiles | qupath-gui-fx/src/main/java/qupath/lib/gui/models/PixelClassificationMeasurementManager.java:203-298 | definition: for each tile in turn, prepare the mask and scan its pixels, keeping the counts of a tile that throws |
| PixelCounting.Step | qupath-gui-fx/src/main/java/qupath/lib/gui/models/PixelClassificationMeasurementManager.java:250-288 | definition: one pixel of the scan: nothing once the tile threw or when unmasked; the throw when PixelClass has no channel; otherwise one more in that channel and in the total |
| PixelCounting.RowScan | qupath-gui-fx/src/main/java/qupath/lib/gui/models/PixelClassificationMeasurementManager.java:251-258 | definition: the first x pixels of row y, in order |
| PixelCounting.TileScan | qupath-gui-fx/src/main/java/qupath/lib/gui/models/PixelClassificationMeasurementManager.java:250-259 | definition: the rows of the tile, in order |
| PixelCounting.StepKeeps | qupath-gui-fx/src/main/java/qupath/lib/gui/models/PixelClassificationMeasurementManager.java:252-257 | one pixel adds one to exactly one count and to the total, or nothing: the sum of the counts stays equal to the total and the counts stay non-negative |
| PixelCounting.RowScanKeeps | qupath-gui-fx/src/main/java/qupath/lib/gui/models/PixelClassificationMeasurementManager.java:251-258 | the same balance over a row |
| PixelCounting.TileScanKeeps | qupath-gui-fx/src/main/java/qupath/lib/gui/models/PixelClassificationMeasurementManager.java:250-259 | the same balance over a tile |
| PixelCounting.CountTilesBalance | qupath-gui-fx/src/main/java/qupath/lib/gui/models/PixelClassificationMeasurementManager.java:199-298 | over all tiles, from zero counts, the counts are non-negative and add up to the total |
| PixelCounting.CountTilesMaskInBounds | qupath-gui-fx/src/main/java/qupath/lib/gui/models/PixelClassificationMeasurementManager.java:203-236 | the buffer never holds a pixel outside its own size |
| PixelCounting.RowScanUnmasked | qupath-gui-fx/src/main/java/qupath/lib/gui/models/PixelClassificationMeasurementManager.java:252-253 | unmasked pixels of a row change nothing |
| PixelCounting.TileScanUnmasked | qupath-gui-fx/src/main/java/qupath/lib/gui/models/PixelClassificationMeasurementManager.java:250-259 | a tile with no masked pixel changes neither the counts nor the total |
| PixelCounting.TileScanStaysFailed | qupath-gui-fx/src/main/java/qupath/lib/gui/models/PixelClassificationMeasurementManager.java:248-260 | once the tile's loop has thrown, no later row or column changes anything |
| PixelCounting.FailureEndsTile | qupath-gui-fx/src/main/java/qupath/lib/gui/models/PixelClassificationMeasurementManager.java:248-265 | when pixel (x, y) throws, the whole tile's result is what was counted before that pixel: counts already made are kept |
| MeasurementManager.PixelAreaInSquareMillimetres | qupath-gui-fx/src/main/java/qupath/lib/gui/models/PixelClassificationMeasurementManager.java:68-75 | with a micron calibration the pixel area is (width * downsample / 1000) * (height * downsample / 1000), in "mm^2" |
| MeasurementManager.PixelAreaNaN | qupath-gui-fx/src/main/java/qupath/lib/gui/models/PixelClassificationMeasurementManager.java:66-79 | the pixel area is NaN if and only if the server is calibrated and its pixel width or height is NaN |
| MeasurementManager.PixelArea | qupath-gui-fx/src/main/java/qupath/lib/gui/models/PixelClassificationMeasurementManager.java:66-79 | definition: the downsampled pixel area in mm^2 when calibrated, else the squared downsample |
| MeasurementManager.PixelAreaUnits | qupath-gui-fx/src/main/java/qupath/lib/gui/models/PixelClassificationMeasurementManager.java:67-78 | definition: "mm^2" when calibrated, else "px^2" |
| MeasurementManager.Fetch | qupath-gui-fx/src/main/java/qupath/lib/gui/models/PixelClassificationMeasurementManager.java:188 | definition: the cached tile when only cached tiles may be used, otherwise the tile read from the server |
| MeasurementManager.FetchAll | qupath-gui-fx/src/main/java/qupath/lib/gui/models/PixelClassificationMeasurementManager.java:184-195 | all or nothing: tiles come back iff every request yields one, then one per request, in request order |
| MeasurementManager.Manager.constructor | qupath-gui-fx/src/main/java/qupath/lib/gui/models/PixelClassificationMeasurementManager.java:58-88 | fixes the downsample, pixel area and units; a root ROI exists iff the image has one z-slice or one timepoint; the names are frozen from zero counts; the cache is empty |
| MeasurementManager.Manager.MeasurementNames | qupath-gui-fx/src/main/java/qupath/lib/gui/models/PixelClassificationMeasurementManager.java:133-135 | the frozen names, or the empty list before they are set |
| MeasurementManager.Manager.RequestsFor | qupath-gui-fx/src/main/java/qupath/lib/gui/models/PixelClassificationMeasurementManager.java:166-175 | definition: all tile requests for the root ROI, the ROI's own requests when it is not empty, else none |
| MeasurementManager.Manager.HistogramOf | qupath-gui-fx/src/main/java/qupath/lib/gui/models/PixelClassificationMeasurementManager.java:166-299 | definition: no histogram for feature output, for a ROI without tile requests, or when a tile is missing; for other non-counting output types the all-zero counts, with only the first tile's mask drawn; otherwise the counts over every tile; always one count per channel |
| MeasurementManager.Manager.CalculationOf | qupath-gui-fx/src/main/java/qupath/lib/gui/models/PixelClassificationMeasurementManager.java:145-299 | definition: MeasurementsFor of HistogramOf's histogram when there is one, else nothing, with the buffer HistogramOf leaves |
| MeasurementManager.Manager.UpdateMeasurements | qupath-gui-fx/src/main/java/qupath/lib/gui/models/PixelClassificationMeasurementManager.java:304-359 | returns the measurement list of the histogram; the names are set only by the first call and are never changed afterwards |
| MeasurementManager.Manager.CalculationAllOrNothing | qupath-gui-fx/src/main/java/qupath/lib/gui/models/PixelClassificationMeasurementManager.java:158-195 | a list comes back iff the output is not a feature map, the ROI needs at least one tile and every tile is available; otherwise the buffer is untouched |
| MeasurementManager.Manager.HistogramBalance | qupath-gui-fx/src/main/java/qupath/lib/gui/models/PixelClassificationMeasurementManager.java:197-298 | a measured histogram has one count per channel, each non-negative, adding up to its total |
| MeasurementManager.Manager.HistogramMaskInBounds | qupath-gui-fx/src/main/java/qupath/lib/gui/models/PixelClassificationMeasurementManager.java:202-236 | measuring keeps the buffer's set pixels inside the buffer |
| MeasurementManager.Manager.CalculationNames | qupath-gui-fx/src/main/java/qupath/lib/gui/models/PixelClassificationMeasurementManager.java:304-355 | every computed list carries exactly the frozen names (only the percentage names for a NaN pixel area) |
| MeasurementManager.Manager.TotalsAgreeWithoutTransparent | qupath-gui-fx/src/main/java/qupath/lib/gui/models/PixelClassificationMeasurementManager.java:345-355 | with no transparent channel, both totals of a computed list equal the counted total times the pixel area |
| MeasurementManager.Manager.DefaultBranchCountsNothing | qupath-gui-fx/src/main/java/qupath/lib/gui/models/PixelClassificationMeasurementManager.java:294-296 | for an output type other than classification, probability or feature, every computed list reports NaN percentages and zero areas |
| MeasurementManager.Manager.FetchTiles | qupath-gui-fx/src/main/java/qupath/lib/gui/models/PixelClassificationMeasurementManager.java:184-195 | the fetch loop stops at the first missing tile and yields FetchAll |
| MeasurementManager.Manager.PrepareMaskBuffer | qupath-gui-fx/src/main/java/qupath/lib/gui/models/PixelClassificationMeasurementManager.java:207-236 | the buffer afterwards holds the tile's mask as PrepareMask defines it |
| MeasurementManager.Manager.DrawShape | qupath-gui-fx/src/main/java/qupath/lib/gui/models/PixelClassificationMeasurementManager.java:213-228 | clears the tile's rectangle and sets the rendered pixels that fit the buffer; the rest of the buffer is unchanged |
| MeasurementManager.Manager.MarkPoints | qupath-gui-fx/src/main/java/qupath/lib/gui/models/PixelClassificationMeasurementManager.java:229-235 | sets the pixel of each point that falls inside the buffer and clears nothing |
| MeasurementManager.Manager.CountPixel | qupath-gui-fx/src/main/java/qupath/lib/gui/models/PixelClassificationMeasurementManager.java:254-257 | a masked pixel adds one to exactly the count PixelClass names and changes nothing else; it throws exactly when PixelClass has no channel |
| MeasurementManager.Manager.CountNextTile | qupath-gui-fx/src/main/java/qupath/lib/gui/models/PixelClassificationMeasurementManager.java:207-293 | one pass of the tile loop: the buffer becomes PrepareMask's mask and the counts advance by that tile's scan |
| MeasurementManager.Manager.CountTile | qupath-gui-fx/src/main/java/qupath/lib/gui/models/PixelClassificationMeasurementManager.java:243-293 | the nested loops, with the exception leaving the loop, produce exactly the tile scan's counts and total |
| MeasurementManager.Manager.TallyTiles | qupath-gui-fx/src/main/java/qupath/lib/gui/models/PixelClassificationMeasurementManager.java:197-299 | the loop over tiles yields CountTiles' counts, total and buffer; for another output type it returns zero counts after the first tile's mask |
| MeasurementManager.Manager.CalculateMeasurements | qupath-gui-fx/src/main/java/qupath/lib/gui/models/PixelClassificationMeasurementManager.java:145-300 | returns CalculationOf's list and leaves CalculationOf's mask in the buffer; the names are unchanged |
| MeasurementManager.Manager.GetMeasurementValue | qupath-gui-fx/src/main/java/qupath/lib/gui/models/PixelClassificationMeasurementManager.java:114-127 | a null ROI gives null; a cached ROI is answered from the cache with nothing changed; otherwise the list is computed, cached only when present, and the named value returned; the invariant holds |
| MeasurementManager.Manager.RoiOf | qupath-gui-fx/src/main/java/qupath/lib/gui/models/PixelClassificationMeasurementManager.java:99-104 | definition: the root ROI for the root object or an object without ROI, else the object's ROI |
| MeasurementManager.Manager.GetMeasurementValueFor | qupath-gui-fx/src/main/java/qupath/lib/gui/models/PixelClassificationMeasurementManager.java:99-104 | an object without a ROI, or the root object, is measured on the root ROI; otherwise on its own ROI |

## Left out

- The rasterisation of a line or area ROI by Java2D is an input (`render`). This covers the stroke of one downsample width for lines, the scaling and translation of the graphics, and RoiTools.getShape.
- ClosedShapeStatistics (plain and scaled) and GeneralTools.almostTheSame are functions handed to the ROI (`Collaborators`). The model does not look inside them.
- The flattening path iterator (tolerance 0.5) happens before the segment stream. A path is the stream it yields. Path2D.Float's rounding to single precision is not modelled.
- DefaultMutableVertices is not part of this model, so what its close() does to a vertex list is an opaque function (`Collaborators.closeVertices`, type `Closer`). Two readings are spelled out: leaving the list as it is (`KeepOpen`) and appending the first point again (`RepeatFirst`). The translation lemmas hold for any close() that commutes with translation, and both readings do. The list getVertices() hands out is taken as a snapshot; aliasing with the list that later LINETOs extend is not modelled.
- The one-argument AWTAreaROI(Shape) constructor (null plane), getShape, getRoiName, contains and writeReplace are not modelled. They only delegate to Java2D or serialisation.
- The measurement cache is a static WeakHashMap shared by all managers of one server. Here it is a map field of the manager, and the "no map for this server" null branch is not modelled.
- `synchronized` and the thread-local mask buffer are not modelled. The model is single-threaded and has one buffer per manager.
- The tiles are visited in request order, and duplicate requests are counted twice. The source visits a HashMap's entries, whose order is unspecified and which collapses duplicates. Only a point ROI's counts can depend on that order; for any ROI, the buffer left behind and the tile the default branch draws do.
- Tile fetching and its IOException: the cached and reading fetches are functions of the server, and a failed read is an absent tile. Logging is left out.
- TileRequestManager and RegionRequest are server functions: all tile requests, and the requests for a ROI at a downsample.
- MeasurementList internals. A list is a sequence of entries. When two entries share a name (a channel named like a total), the first entry is read. A name the list lacks is read as NaN.
- ClassifierMeasurements.Percent: a positive count over a zero non-transparent total would be Infinity in Java; here it is NaN. It cannot arise, because such a count is part of that total.
- `long` counters and `(int)` casts are unbounded integers. Doubles are reals, NaN appears only as `Value`, and probability samples are never NaN.
- The byte-array copy of the mask (getDataElements) and the TYPE_BYTE_GRAY check are not modelled. The buffer is read directly and is always the right type.
- A tile of width or height 0 is not modelled distinctly. In Java such an image cannot be created.
- The "counts == null" branches of updateMeasurements are not modelled, because every caller passes an array.
- In the calibrated pixel area, the µm² value computed first and then overwritten at once is not modelled.
- The root ROI's rectangle is given by its four corners. Its plane is not modelled.
