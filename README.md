# Cartridge QC image analysis — a Dafny model

This project models the integer and combinatorial layer of a small set of
scripts that check photographs of test cartridges. The scripts do four things.

- **The driver** walks an input folder and puts every analysable image into one of four lists. The list is chosen by the first keyword ("pre coins", "post coins", "pre buffers", "post buffers") found in the lower-cased path. The driver then runs each analysis on its list.
- **Six per-image analyses** each write one CSV file. Each locates something on an image and turns pixel distances into millimetres through a reference of known size:
  - the liquid line(s) against a white reference feature (pre-buffer, post-buffer);
  - the coin against the chamber (coin position);
  - the laminate seams (laminate position);
  - the particulate share inside the chamber (PMPS);
  - the white and dark shares of two rectangles placed from the chamber (wax melt).
- **The batch loops.** Each loop writes a header and then one row per readable image, in input order.
- **The photo-renaming script.** It sorts a folder's images, cuts them into groups of four and reads a serial number from the first photo of each group. It then renames the four photos "pre" on the serial's first sighting and "post" afterwards.

OpenCV does the image processing. Its outputs are inputs of the model:

- Sobel gradient crops;
- smoothed projection profiles;
- Hough circle candidates (already rounded);
- HSV pixels with the filled chamber mask;
- grayscale grids.

What the model keeps is everything the scripts compute from those outputs:

- the first-maximum edge search and peak suppression;
- circle selection and sentinels;
- numpy slice clamping;
- the scale guards and the conversions to millimetres;
- the CSV rows and the batch control flow (skip, continue, abort);
- the keyword routing;
- the sort, the grouping, the word search and the renaming plan.

Floating-point division is modelled as exact `real` division.

Modules, one per file:

- `Common`: CSV cells, images, the generic per-image loop `Emitted`, Python slicing, path and text helpers.
- `Profile`: `detect_horizontal_line` and `detect_feature_height`.
- `Circles`: Hough candidate selection.
- `Calibration`: the scale guards.
- `BufferPre`, `BufferPost`, `Laminate`, `Coin` (and `CoinAsWritten`), `Pmps`, `Wax`: the analyses.
- `Naming`: the renaming script.
- `Integrated`: the driver.

Where the project's design description and the code disagree, the model follows the code:

- Peak suppression zeroes `row_strength[max(t-10,0):min(t+10,n)]`. That window is 10 samples before the peak and 9 after it, not a symmetric window.
- The description says a failure on one image never aborts the batch. In the wax-melt analysis an empty rectangle makes `white / total` raise `ZeroDivisionError`, and nothing catches it. The batch ends there, with the rows already written kept. `Wax.Run` and `Wax.ProcessWaxMeltImages` model exactly that.
- The coin analysis reads locals that only the detection branches assign. It is modelled both as written and corrected; see "## Findings".
- The driver has no exception handler. The first analysis that raises ends the script, and the analyses after it do not run. `Integrated.Dispatch` models that order.

## Model

| member | source | states |
|---|---|---|
| Common.Emitted | buffer_analysis_pre.py:59-64 | the rows a per-image loop appends: unreadable images and `continue`d images give none, so there are never more rows than images |
| Common.EmittedAppend | buffer_analysis_pre.py:59-91 | the rows of a batch `a + b` are the rows of `a` followed by those of `b`: input order is kept and no image affects another's row |
| Common.UnreadableEmitsNothing | buffer_analysis_pre.py:61-64 | an image `cv2.imread` cannot decode contributes no row |
| Common.EmittedCount | buffer_analysis_pre.py:59-91 | when every readable image yields a row, the batch has exactly one row per readable image |
| Common.SliceIndex | wax_melt_analysis.py:80 | a Python slice bound: in-range bounds are kept, negative ones count from the end, and both are clamped to [0, n] |
| Common.SliceRange | wax_melt_analysis.py:80 | the selected half-open range lies within the sequence (empty when the bounds cross) |
| Common.FloorDiv | laminate_position_analysis.py:76 | `a // b` for a positive divisor is the floor quotient: `q*b <= a < q*b + b` |
| Common.Lower | integrated_image_analysis_v1.py:23 | `str.lower()` keeps the length and lower-cases each ASCII capital, leaving every other character |
| Common.Upper | naming_photos.py:44 | `str.upper()` keeps the length and upper-cases each ASCII small letter, leaving every other character |
| Common.RFind | buffer_analysis_pre.py:60 | the index of the last occurrence of a character, or -1 when there is none |
| Common.Basename | buffer_analysis_pre.py:60 | `os.path.basename` is a suffix of the path with no '/' in it, and the whole path when it has no '/' |
| Profile.Saturate | buffer_analysis_pre.py:33 | `convertScaleAbs` on one sample: the magnitude, saturated into [0, 255] and equal to it when it fits |
| Profile.SumSaturated | buffer_analysis_pre.py:34 | a row sum of saturated samples lies in [0, 255 * width] |
| Profile.RowStrength | buffer_analysis_pre.py:33-34 | one strength per crop row, each the sum of that row's saturated gradient magnitudes |
| Profile.RowStrengthBounds | buffer_analysis_pre.py:33-34 | every row strength of a crop `w` pixels wide lies in [0, 255 * w] |
| Profile.ArgMax | buffer_analysis_pre.py:35 | `np.argmax`: an index of a maximal entry, with every earlier entry strictly smaller (the first maximum) |
| Profile.ArgMaxUnique | buffer_analysis_pre.py:35 | any index that is a maximum with only smaller entries before it is the argmax |
| Profile.DetectLine | buffer_analysis_pre.py:28-36 | the liquid line is the ROI top plus the first row of maximal strength, so it lies inside the crop |
| Profile.SuppressionWindow | buffer_analysis_pre.py:48-50 | the clamped window `[max(t-10,0), min(t+10,n))` contains the peak and, within the profile, exactly the indices in `[t-10, t+10)` |
| Profile.Suppressed | buffer_analysis_pre.py:51 | `row_strength[lo:hi] = 0`: entries in the window become 0 and every other entry is unchanged |
| Profile.ZeroRange | buffer_analysis_pre.py:51 | the in-place slice assignment leaves the array equal to `Suppressed` of its old contents |
| Profile.Peaks | buffer_analysis_pre.py:46-52 | the primary peak is the argmax, and the second is the first maximum of the profile with the window around the primary peak zeroed |
| Profile.FeatureHeight | buffer_analysis_pre.py:54-57 | top <= bottom, both in the ROI, the two edges are the two peaks (offset by the ROI top) in order, and the height is their distance |
| Profile.SecondPeakSeparated | buffer_analysis_pre.py:46-57 | when some positive strength lies outside the suppression window, the reported height is at least the half-width 10 |
| Profile.TwoEdgesRecovered | buffer_analysis_pre.py:46-57 | a unique strongest row and a strongest row outside its window are reported as top and bottom, in order, and the height is their distance |
| Profile.DetectFeatureHeight | buffer_analysis_pre.py:38-57 | the in-place procedure (argmax, zero the window, argmax again, order the two) computes `FeatureHeight` of the row-strength profile |
| Calibration.BufferScale | buffer_analysis_pre.py:72 | the scale is undefined exactly when the feature height is 0, and otherwise times 1.369 gives the height |
| Calibration.BufferDeltaMm | buffer_analysis_pre.py:72-73 | the offset in mm is "NA" exactly when the feature height is 0, and otherwise `delta * 1.369 / height` |
| Calibration.ScaleConsistent | buffer_analysis_pre.py:73 | dividing by the scale `span / mm` is multiplying by `mm / span` |
| Calibration.LaminateScale | laminate_position_analysis.py:122 | the scale is positive exactly for a positive radius, then times 3 mm it gives the radius; otherwise it is -1 |
| Calibration.LaminateDistanceMm | laminate_position_analysis.py:127 | with a positive scale the distance in mm times the scale is the pixel distance; otherwise -1 |
| Calibration.CoinMmPerPx | coin_position_analysis.py:94 | `3.0 / cr` times the radius is 3 mm; the sentinel radius -1 gives -3.0; positive exactly for a positive radius |
| Calibration.WaxScale | wax_melt_analysis.py:60 | `cr / 3.0` times 3 mm is the radius, non-negative for a non-negative radius |
| Calibration.WorkedExample | buffer_analysis_pre.py:72-73 | a 100 px feature and a 50 px offset give 100 / 1.369 px per mm and 0.6845 mm |
| Circles.LargestIndex | coin_position_analysis.py:66 | `max(key=radius)` picks a largest radius, the first one among equals |
| Circles.Offset | coin_position_analysis.py:67 | moving a circle into full-image coordinates adds the box origin to the centre and keeps the radius |
| Circles.SelectLargest | coin_position_analysis.py:64-67 | nothing is selected exactly when there are no candidates; otherwise the choice is the first candidate of largest radius, offset by the box origin |
| Circles.Shift | coin_position_analysis.py:67 | a detection moves to full-image coordinates, and an absent one stays absent |
| Circles.SelectThenShift | coin_position_analysis.py:65-67 | selecting in box coordinates and then shifting is the same as selecting with the offset |
| Circles.SelectFirst | pmps_analysis.py:60-65 | `circles[0, 0]` takes the detector's first candidate, not the largest, offset into the full image, and nothing when there is none |
| Circles.CircleCells | pmps_analysis.py:52-65 | the centre and radius cells are the detection, or the sentinel (-1, -1, -1) when there is none |
| BufferPre.Measure | buffer_analysis_pre.py:66-73 | liquid line inside its ROI, feature edges ordered inside theirs, `delta_y = top - liquid`, and `delta_mm` "NA" exactly when the height is 0, else `delta * 1.369 / height` |
| BufferPre.RowOf | buffer_analysis_pre.py:86-91 | every readable image gets a row with one cell per header column |
| BufferPre.RowCells | buffer_analysis_pre.py:66-91 | the cells in header order: the detected liquid line, the feature's top and bottom edges, the feature height, the liquid's height below the feature top, and that height in millimetres |
| BufferPre.MeasureImage | buffer_analysis_pre.py:60-91 | the loop body, with the in-place feature detector, produces `RowOf` |
| BufferPre.ProcessPreBufferImages | buffer_analysis_pre.py:6-97 | nothing is written for an empty list; otherwise the header and the rows of the readable images, in order |
| BufferPre.SkipsUnreadable | buffer_analysis_pre.py:59-64 | a readable and an unreadable image give exactly the readable one's row |
| BufferPost.Measure | buffer_analysis_post.py:69-80 | both liquid lines inside their ROIs, both offsets measured from the same feature top, each "NA" exactly when the height is 0, else `delta * 1.369 / height` |
| BufferPost.RowOf | buffer_analysis_post.py:101-107 | every readable image gets a row with one cell for each of the ten header columns |
| BufferPost.RowCells | buffer_analysis_post.py:61-107 | the cells in header order: the two detected liquid lines, the feature's top and bottom edges, the feature height, then each chamber's height below the feature top in pixels and in millimetres |
| BufferPost.MeasureImage | buffer_analysis_post.py:61-107 | the loop body produces `RowOf` |
| BufferPost.ProcessPostBufferImages | buffer_analysis_post.py:6-113 | nothing is written for an empty list; otherwise the header and the rows of the readable images, in order |
| BufferPost.OneRowPerReadableImage | buffer_analysis_post.py:61-107 | the file has one row per readable image after the header |
| Laminate.Header | laminate_position_analysis.py:35-44 | the header has the file name, two columns per region and eight more |
| Laminate.RoiNames | laminate_position_analysis.py:36-38 | two column names per region |
| Laminate.SeamPoint | laminate_position_analysis.py:65-86 | a horizontal seam reports the box's middle column and the first row of maximal strength; a vertical seam reports the first such column and the box's middle row; every earlier row (column) is strictly weaker |
| Laminate.SeamCells | laminate_position_analysis.py:57-92 | the region loop appends two integer cells per region |
| Laminate.SeamCellsAt | laminate_position_analysis.py:57-92 | cells 2k and 2k+1 of the region loop's output are region k's point |
| Laminate.LaminateMm | laminate_position_analysis.py:122-130 | with a detected chamber, a distance in mm is the pixel distance times 3 mm over the radius |
| Laminate.DistanceCells | laminate_position_analysis.py:121-136 | the distances are absolute differences; with a positive radius the scale is the radius over 3 mm and the vertical and horizontal mm distances are each pixel distance times 3 mm over the radius; otherwise all three are -1 |
| Laminate.DistanceSymmetric | laminate_position_analysis.py:126-130 | the distances do not depend on the order of the two regions |
| Laminate.PointCells | laminate_position_analysis.py:55-119 | the row before the distance step: the file name, integer cells, and last the largest chamber's full-image centre and radius, or three -1s when none was detected |
| Laminate.RowOf | laminate_position_analysis.py:47-138 | a row exists exactly when the frame has one profile per region and there are at least two regions, and it has one cell per header column |
| Laminate.ReadBack | laminate_position_analysis.py:123-124 | the cells read back by index (2, 4, 5, 7) are region 1's row, region 2's row, region 3's column and region 4's column, and the radius cell is the chamber's |
| Laminate.RowCells | laminate_position_analysis.py:119-136 | with the four configured regions, the row is the point cells followed by the distance cells of region 1's row, region 2's row, region 3's column, region 4's column and the chamber's radius cell |
| Laminate.LocateSeam | laminate_position_analysis.py:65-86 | the seam point computed branch by branch is `SeamPoint` of the region and its profile |
| Laminate.SeamRow | laminate_position_analysis.py:57-92 | the region loop, run in order, appends exactly `SeamCells` |
| Laminate.BuildRow | laminate_position_analysis.py:54-138 | the step-by-step row construction equals `RowOf` |
| Laminate.ProcessLaminateImages | laminate_position_analysis.py:6-138 | nothing is written for an empty list; otherwise the header and the rows of the readable images, in order |
| Laminate.RowsMatchHeader | laminate_position_analysis.py:35-45 | every row the batch writes has one cell per header column |
| Coin.DetectionCells | coin_position_analysis.py:63-89 | corrected: four cells per circle: the detected circle's full-image centre and radius, or the sentinel -1s, and the detected flag |
| Coin.ScaleCell | coin_position_analysis.py:94 | corrected: the scale is present exactly when a chamber of positive radius was detected, and it is then positive |
| Coin.ScaleCalibrates | coin_position_analysis.py:94 | corrected: a present scale times the chamber's radius in pixels gives the chamber's 3 mm |
| Coin.OffsetCells | coin_position_analysis.py:91-97 | corrected: pixel offsets exist exactly when both circles were found in this image and are coin minus chamber; mm offsets exist exactly when the scale does too |
| Coin.RowOf | coin_position_analysis.py:99-104 | corrected: every readable image gets a row with one cell for each of the 14 header columns |
| Coin.RowCells | coin_position_analysis.py:63-104 | corrected: the cells in header order: the file name, the largest chamber circle's cells, the largest coin circle's cells (both in full-image coordinates), then the five offset cells |
| Coin.OffsetsMatchFullImage | coin_position_analysis.py:91-104 | corrected: the offsets are present exactly when both flags are true, and they equal the difference of the full-image centres in the same row |
| Coin.MeasureImage | coin_position_analysis.py:44-104 | corrected: the loop body, with its flags and sentinels, produces `RowOf` |
| Coin.ProcessCoinImages | coin_position_analysis.py:6-104 | corrected: nothing is written for an empty list; otherwise the header and the rows of the readable images, in order |
| CoinAsWritten.Step | coin_position_analysis.py:63-104 | one iteration as written: when it does not raise, it writes one 14-cell row |
| CoinAsWritten.Run | coin_position_analysis.py:44-104 | the loop as written never writes more rows than images, each 14 cells wide |
| CoinAsWritten.FirstMissAbortsBatch | coin_position_analysis.py:91-92 | a first readable image without a chamber stops the batch with no rows, where the intended loop writes one for it |
| CoinAsWritten.NeitherFoundIntended | coin_position_analysis.py:91-97 | the intended row for an image with neither circle has no offsets and no scale |
| CoinAsWritten.StaleOffsetsReused | coin_position_analysis.py:91-97 | after an image with both circles, an image with neither gets the earlier offsets and the scale -3.0, where the intended row has none |
| Pmps.RowArea | pmps_analysis.py:81 | the chamber pixels of one row are at most the row's width |
| Pmps.RowThresholded | pmps_analysis.py:74 | the in-range pixels of one row are at most the row's width |
| Pmps.RowInChamber | pmps_analysis.py:80-82 | pixels in both masks are at most those in either mask |
| Pmps.ThresholdedInChamber | pmps_analysis.py:80-82 | `thresholded_px` never exceeds `chamber_area_px` |
| Pmps.Percent | pmps_analysis.py:83 | the integer 0 exactly when the whole is 0, else a non-negative real with `r * whole == part * 100` |
| Pmps.PercentAtMostHundred | pmps_analysis.py:83 | a part no larger than the whole is at most 100 percent |
| Pmps.Measure | pmps_analysis.py:50-92 | detected exactly when there is a candidate; the first candidate or the sentinel; zero counts without a chamber; the counts of both masks otherwise; in-chamber pixels at most the area, and the area percentage in [0, 100] |
| Pmps.RowOf | pmps_analysis.py:97-104 | every readable image gets a nine-cell row, detected chamber or not |
| Pmps.RowCells | pmps_analysis.py:38-104 | the cells in header order: the first candidate's full-image centre and radius or the -1 sentinels, the detected flag, then the chamber area, the thresholded pixels inside it and the two percentages over that area, or four zeros without a chamber |
| Pmps.MeasureImage | pmps_analysis.py:38-104 | the loop body, with its sentinels overwritten on detection, produces `RowOf` |
| Pmps.ProcessPmpsImages | pmps_analysis.py:6-108 | nothing is written for an empty list; otherwise the header and the rows of the readable images, in order |
| Pmps.OneRowPerReadableImage | pmps_analysis.py:38-104 | the file has one row per readable image after the header |
| Pmps.RatioCanExceedHundred | pmps_analysis.py:85-87 | the box-to-chamber ratio is not a percentage bounded by 100: a concrete image gives 100.0 and 200.0 |
| Wax.Trunc | wax_melt_analysis.py:63-72 | `int()` truncates toward zero |
| Wax.Geometry | wax_melt_analysis.py:62-74 | rectangle 2's corner `tr` is rectangle 1's `tl`, and for a non-negative radius both rectangles' corners are ordered |
| Wax.TruncQuotient | wax_melt_analysis.py:63-72 | truncating an exact non-negative quotient is integer division |
| Wax.GeometryInPixels | wax_melt_analysis.py:62-74 | the rectangles in whole pixels: `br` at `((2cx - cr) / 2, (20cy - 21cr) / 20)` and widths `cr/2`, `5cr/3`, `24cr/5`, `cr/2` |
| Wax.Region | wax_melt_analysis.py:80 | the slice between the corners has no more rows than the image |
| Wax.Columns | wax_melt_analysis.py:80 | cutting each row keeps the row count and never lengthens a row |
| Wax.RowWhite | wax_melt_analysis.py:81-83 | the white pixels of a row are at most its width |
| Wax.White | wax_melt_analysis.py:81-83 | `countNonZero` never exceeds `binary.size` |
| Wax.Percent | wax_melt_analysis.py:85-86 | a share of a positive total lies in [0, 100] |
| Wax.PercentOfTotal | wax_melt_analysis.py:85 | the percentage times the total is 100 times the part |
| Wax.PercentComplement | wax_melt_analysis.py:84-86 | the white and dark percentages of one region add up to 100 |
| Wax.AnalyzeRoi | wax_melt_analysis.py:79-89 | `analyze_roi` fails exactly on an empty region; otherwise the two percentages split 100 |
| Wax.AnalyzeRoiShares | wax_melt_analysis.py:81-86 | for a non-empty region the white percentage is the share of pixels above the threshold and the dark one the share of the rest |
| Wax.AnalyzeRoiCornerOrder | wax_melt_analysis.py:80 | the corners may be given in either order on either axis |
| Wax.Assemble | wax_melt_analysis.py:91-110 | the image raises exactly when a rectangle is empty, and is never skipped |
| Wax.AssembledRow | wax_melt_analysis.py:91-110 | the seven-cell row: the file name, each rectangle's white and dark shares, then the totals, which add the rectangles up, with the white total in [0, 200] and the two totals summing to 200 |
| Wax.Step | wax_melt_analysis.py:53-110 | an image is skipped exactly when no chamber was detected |
| Wax.RaisesOnEmptyRectangle | wax_melt_analysis.py:79-92 | an image with a chamber raises exactly when one of its two rectangles is empty |
| Wax.RowOf | wax_melt_analysis.py:105-110 | an image has a row exactly when its step writes one |
| Wax.MeasureImage | wax_melt_analysis.py:41-110 | the loop body, with its `continue` and the two `analyze_roi` calls, computes `Step` |
| Wax.Run | wax_melt_analysis.py:34-110 | the loop never writes more rows than images |
| Wax.RunStopsAtRaise | wax_melt_analysis.py:34-110 | once an exception has ended the loop, later images change nothing |
| Wax.FirstRaise | wax_melt_analysis.py:34-110 | the first image that raises: none before it raises, and it does |
| Wax.RunCharacterised | wax_melt_analysis.py:34-110 | the loop writes the rows of the images before the first one that raises, and it raised exactly when there is such an image |
| Wax.WaxRunCharacterised | wax_melt_analysis.py:25-110 | the wax CSV holds the header, then the rows of the images before the first raising one, in order |
| Wax.VisitImage | wax_melt_analysis.py:34-110 | one pass of the loop appends the image's row, if any, and reports whether it raised, as `Run` does for one more image |
| Wax.ProcessWaxMeltImages | wax_melt_analysis.py:6-110 | nothing is written for an empty list; otherwise the header and the loop's rows, and whether it ended on an exception |
| Naming.LexTotal | naming_photos.py:23-25 | Python's string order is total |
| Naming.ImageNames | naming_photos.py:24 | the comprehension keeps exactly the image names of the listing, and no name more often than listed |
| Naming.Insert | naming_photos.py:23-25 | insertion into a sorted list keeps it sorted and adds exactly one element |
| Naming.Sort | naming_photos.py:23-25 | `sorted` returns a sorted permutation |
| Naming.SortedImageList | naming_photos.py:22-25 | the result is sorted, a permutation of the kept names, and contains a name exactly when it is an image name in the listing |
| Naming.Groups | naming_photos.py:32-36 | `len / 4` complete groups; group j is `files[4j:4j+4]`; an incomplete tail is dropped |
| Naming.MatchPositions | naming_photos.py:45 | every reported match lies inside the text, at or after the scan start |
| Naming.MatchPositionsSound | naming_photos.py:45 | every reported position is a match of `\b[A-Z]{4}\b`, and the positions increase |
| Naming.MatchPositionsComplete | naming_photos.py:45 | no match is missed: every match at or after the scan start is reported |
| Naming.FindAll | naming_photos.py:45 | one four-character word per match |
| Naming.LastWordIsLastMatch | naming_photos.py:45-52 | a text with a match has words, and its last word is the text at its last match |
| Naming.WordsAreFourCapitals | naming_photos.py:44-45 | every word is four capital letters |
| Naming.SerialFromLastFragmentWithWords | naming_photos.py:42-52 | the serial is the last word of the last OCR fragment that has words |
| Naming.CollectWords | naming_photos.py:42-46 | the word-collecting loop gathers the words of all fragments in order |
| Naming.Suffix | naming_photos.py:65 | `Path.suffix` is empty or a dot-led suffix of the name with no other dot |
| Naming.ImageSuffix | naming_photos.py:65 | an image name keeps its own extension, in its own case; a name that is only the extension (".jpg") has none |
| Naming.NewNameFormat | naming_photos.py:61-66 | a new name is the serial, a space, "pre " or "post " by repetition, the label and the extension |
| Naming.Renames | naming_photos.py:61-68 | a group's four files are renamed in order with the labels label, beads, coins, buffers |
| Naming.SerialOf | naming_photos.py:42-52 | no serial exactly when the OCR text has no four-letter word; otherwise the last one |
| Naming.GroupOutcome | naming_photos.py:48-68 | a group without a serial is skipped and changes nothing; otherwise the serial is recorded and the group renamed "post" exactly when it was already seen |
| Naming.Plan | naming_photos.py:28-68 | processing groups only adds to the seen set |
| Naming.PreThenPost | naming_photos.py:54-61 | two groups with the same serial: the first is "pre" unless already seen, the second is "post" |
| Naming.PlanSeesSerials | naming_photos.py:54-57 | every serial read along the way is in the final seen set |
| Naming.PhotoNamer.constructor | naming_photos.py:19 | the seen set starts empty |
| Naming.PhotoNamer.ProcessGroup | naming_photos.py:38-68 | one group's moves and the new seen set are `GroupOutcome` of the old seen set |
| Naming.PhotoNamer.ProcessImageGroups | naming_photos.py:28-68 | the moves and new seen set are the plan for the complete groups of the sorted image list |
| Naming.PhotoNamer.ProcessNext | naming_photos.py:32-68 | one pass of the loop over the groups renames group `i` and leaves the plan of the groups after it |
| Naming.PhotoNamer.ProcessGroups | naming_photos.py:32-68 | the loop over the groups carries out the plan |
| Integrated.Join | integrated_image_analysis_v1.py:22 | `os.path.join` ends with the file name, and an absolute file name replaces the root |
| Integrated.CategoryPrecedence | integrated_image_analysis_v1.py:23-32 | a path goes to the first keyword in the order pre coins, post coins, pre buffers, post buffers that its lower-cased form contains, and to no list exactly when none occurs |
| Integrated.DirPaths | integrated_image_analysis_v1.py:19-22 | a directory contributes at most one path per file |
| Integrated.DirPathsMembers | integrated_image_analysis_v1.py:19-22 | a directory contributes exactly the joined paths of its files with an image extension, in any letter case |
| Integrated.DiscoveredMembers | integrated_image_analysis_v1.py:18-22 | the walk contributes exactly what its directories contribute |
| Integrated.Select | integrated_image_analysis_v1.py:25-32 | a category's list is no longer than the paths found |
| Integrated.SelectAppend | integrated_image_analysis_v1.py:18-32 | the lists keep discovery order across directories |
| Integrated.SelectMembers | integrated_image_analysis_v1.py:25-32 | a path is in a list exactly when it was found and that is its category |
| Integrated.ListsDisjoint | integrated_image_analysis_v1.py:25-32 | no path is in two lists |
| Integrated.NoKeywordNoList | integrated_image_analysis_v1.py:25-32 | a path with no keyword is in no list |
| Integrated.ListedExactly | integrated_image_analysis_v1.py:18-32 | a path is in a category's list exactly when it has that category and is the joined path of an image file of some directory of the walk |
| Integrated.CategorizeImages | integrated_image_analysis_v1.py:10-32 | the nested walk loop builds all four lists, each the paths of its category in discovery order |
| Integrated.ScanDirectory | integrated_image_analysis_v1.py:19-32 | the loop over one directory appends its paths to their lists |
| Integrated.AddFile | integrated_image_analysis_v1.py:20-32 | one file's path, when analysable, is appended to the list of its category |
| Integrated.Scheduled | integrated_image_analysis_v1.py:43-52 | the calls the driver makes in the absence of exceptions: each analysis once, on its own list, exactly when that list is not empty, in the driver's order |
| Integrated.UpToRaise | integrated_image_analysis_v1.py:43-52 | with no handler, the runs that start are a prefix of the sequence: all of it when none raises, otherwise up to and including the first that raises |
| Integrated.Dispatch | integrated_image_analysis_v1.py:43-52 | the analyses that start are a prefix of the scheduled calls: all of them when none raises, otherwise ending with the one that raised |
| Integrated.UpToRaiseMembers | integrated_image_analysis_v1.py:43-52 | in a sequence in driver order, an entry starts exactly when no entry before it raises |
| Integrated.DispatchCharacterised | integrated_image_analysis_v1.py:43-52 | an analysis runs exactly when its list is not empty and no analysis before it with a non-empty list raised; the script ends with an exception exactly when some analysis with a non-empty list raises |

## Left out

- Image processing is not modelled. Decoding, colour conversion, blurring, CLAHE, Sobel, Hough and drawing belong to OpenCV, so their outputs are inputs of the model.
- Writing annotated images and masks, creating folders and printing are I/O, and none of them changes a CSV row.
- Floating point is modelled as exact reals. The `:.2f` formatting of the wax rows is left out: those cells hold the exact percentages.
- The `uint8` cast of the laminate projection is not modelled; the smoothed projection is an input. The `uint16` cast of Hough circles is not modelled either: candidates are given already rounded.
- Text operations are ASCII approximations of Python's Unicode-aware `lower`, `upper`, `\b` and `sort`.
- Paths use the POSIX separator. The network share paths hard-coded in the scripts are inputs.
- OCR (`easyocr`) is a parameter of the renaming plan, mapping a photo's name to its text fragments.
- The listing order of `os.listdir` and the walk order of `os.walk` are inputs.
- The renaming moves are file names in the same folder. `shutil.move` itself is not modelled.
- `dirs` in the walk is not modelled; only each directory's `root` and `files` are used.
- Profile.DetectLine: crops are non-empty. For an empty crop OpenCV raises before the argmax, and the model does not describe that case.
- Profile.DetectFeatureHeight: crops are non-empty, for the same reason as in `DetectLine`.
- Laminate.ProcessLaminateImages: requires every frame to carry one profile per region and at least two regions. The index reads `row[2..7]` would fail otherwise; the configured four regions always meet this.
- Calibration.CoinMmPerPx: requires a non-zero radius. The source divides unguarded by a numpy integer, so a zero radius would give an infinite scale with a warning, not an exception; the reals have no infinity, and Hough never reports a zero radius within the 80-92 band. CoinAsWritten.Step stops on that unreachable case instead of writing an infinite scale.
- Wax.Percent: requires a positive total and a part no larger than it. It is only applied to `countNonZero` of a non-empty region.
- Pmps.Measure: the HSV pixels are read from the annotated image, after the box and circles are drawn on it. The model takes the pixels as given and does not re-derive the drawn overlays.
- Integrated.Dispatch: whether an analysis raises is a parameter, because the analyses run on the files the paths name, which the model does not read. `CoinAsWritten.Run` and `Wax.Run` say when the two analyses that can raise do so.
- The PMPS and wax masks and annotated images that are saved are left out as I/O.
- Common.Emitted: the CSV file is written only at the end of the buffer and PMPS analyses. So an exception in them would lose the rows already computed, whereas the coin, laminate and wax analyses write as they go. Two analyses can raise on a readable image: the coin analysis when a circle was never found (`CoinAsWritten.FirstMissAbortsBatch`) and the wax analysis on an empty rectangle (`Wax.RaisesOnEmptyRectangle`). Both write as they go, so their as-written models keep the rows written before the exception, and `Integrated.Dispatch` stops the driver there.

## Findings

| source | as written | input that shows it | evidently intended | confidence | as-written member | corrected member |
|---|---|---|---|---|---|---|
| coin_position_analysis.py:91-92 | the offsets read `x2 - cx`, but `cx, cy` and `x2, y2` are only assigned in the detection branches (lines 65-67, 82-84) | the first readable image has no chamber or no coin: `UnboundLocalError` ends the batch and no later image gets a row | every readable image gets a row, with the offsets marked unavailable when a circle is missing | high (not executed) | CoinAsWritten.FirstMissAbortsBatch | Coin.OffsetCells |
| coin_position_analysis.py:91-97 | after a detected image, a later image reuses the earlier centres, and `3.0 / cr` with the sentinel `cr = -1` gives -3.0 mm/px | image 1 with chamber (100, 100, 85) and coin (130, 90, 60), then image 2 with neither: row 2 gets offset 30 px, scale -3.0 and -90.0 mm | no offsets without both circles, no scale without a chamber | high (not executed) | CoinAsWritten.StaleOffsetsReused | Coin.ScaleCell |
