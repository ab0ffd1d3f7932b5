# ThorWallpaperTool geometry and monkey-test scoring in Dafny

ThorWallpaperTool is an Android app for a dual-screen handheld. It has a 1920x1080 upper panel at 367 ppi and a 1240x1080 lower panel at 297 ppi. The app splits one picture into two wallpapers, and the user can leave a gap between the panels. This project models the logic of the app and of its two monkey-test scripts, and proves properties of that model:

- `DeviceConfig` (`device_config.dfy`): the panel constants and their density ratio.
- `ImageProcessor` (`image_processor.dfy`): the production wallpaper geometry.
  - The source is cover-fitted onto a combined canvas: the upper panel, then the gap, then a lower band shrunk by the density ratio.
  - Both wallpapers are cut from that canvas.
  - Every Android bitmap call is modelled by its argument checks. A call that would throw `IllegalArgumentException` is an `Err`.
- `CropPreview` (`crop_preview_view.dfy`): the crop preview view, an independent second geometry.
  - The source is contain-fitted into the view.
  - The upper, gap and lower regions are computed in source pixels, then mapped into view coordinates.
  - The view is a class whose methods overwrite its fields, as the Kotlin view does. The `onMeasure` height rule is also modelled.
- `MainActivity` (`main_activity.dfy`):
  - the power-of-two `inSampleSize` loop that chooses how to down-sample the preview;
  - the reading of the gap text field: `trim()`, `toInt()`, and the 0 default.
- `MonkeyAnalyzer` (`monkey_analyzer.dfy`): the analyzer script's stability score, status band, advice list and exit code.
- `MonkeyTest` (`monkey_test.dfy`): the monkey driver script's bookkeeping.
  - The tester records the actions it executes.
  - From that record it derives the per-strategy distribution, the effectiveness scores, the advice and the risk summary.
- `Numerics` and `Graphics`: Kotlin's truncating conversions, and the sizes-only view of bitmaps and rectangles.

Floats are modelled as exact reals. `Float.toInt()` and Kotlin's Int `/` truncate toward zero, and the model writes that out.

## Model

| member | source | states |
|---|---|---|
| DeviceConfig.LowerToUpperPpiRatio | app/src/test/java/com/adam/thorwallpapertool/ImageProcessorTest.kt:9-14 | 297/367, the ratio the unit test puts at about 0.809, lies within 0.001 of 0.809 and below 1: the lower panel is the less dense one |
| DeviceConfig.PanelResolutions | app/src/main/java/com/adam/thorwallpapertool/DeviceConfig.kt:8-17 | the panel sizes are 1920x1080 and 1240x1080 and the densities 367 and 297 ppi, as the unit test at ImageProcessorTest.kt:17-25 asserts |
| ImageProcessor.ConstantsMatchDeviceConfig | app/src/main/java/com/adam/thorwallpapertool/ImageProcessor.kt:10-19 | the processor's private copies of the panel constants agree with `DeviceConfig` |
| ImageProcessor.PpiScaleFactor | app/src/main/java/com/adam/thorwallpapertool/ImageProcessor.kt:36 | the processor's density factor is the `DeviceConfig` ratio, between 0.808 and 0.810 |
| ImageProcessor.CombinedWidth | app/src/main/java/com/adam/thorwallpapertool/ImageProcessor.kt:39 | the canvas is as wide as the wider panel (1920) |
| ImageProcessor.ScaledLowerHeight | app/src/main/java/com/adam/thorwallpapertool/ImageProcessor.kt:36-41 | the lower band is 1080 rows times the density ratio, truncated, which is 874 |
| ImageProcessor.CombinedHeight | app/src/main/java/com/adam/thorwallpapertool/ImageProcessor.kt:42 | the canvas height is the gap plus 1080 + 874 |
| ImageProcessor.CanvasGrowsWithGap | app/src/main/java/com/adam/thorwallpapertool/ImageProcessor.kt:42 | a wider gap makes the canvas strictly taller, by exactly the difference in gap |
| ImageProcessor.FitToCanvas | app/src/main/java/com/adam/thorwallpapertool/ImageProcessor.kt:44-61 | the axis ratios are canvas width over source width and canvas height over source height; the scale is the larger; the scaled sides are the source sides times the scale, truncated; the offsets centre the scaled source; it covers the canvas on both axes and matches it on the dominant one |
| ImageProcessor.CoverAxis | app/src/main/java/com/adam/thorwallpapertool/ImageProcessor.kt:46-52 | on one axis, a scale at least target/length stretches the length to at least the target, exactly to it at that ratio, and still after truncation |
| ImageProcessor.CoverScaleIsLeast | app/src/main/java/com/adam/thorwallpapertool/ImageProcessor.kt:46-48 | the larger ratio is the least covering scale: at any smaller positive scale the source falls short of the canvas on some axis |
| ImageProcessor.UpperScreenCrop | app/src/main/java/com/adam/thorwallpapertool/ImageProcessor.kt:74-91 | the upper crop is top-aligned and horizontally centred, min(1920, width) by min(1080, height), and always fits in the bitmap |
| ImageProcessor.CreateUpperScreenBitmap | app/src/main/java/com/adam/thorwallpapertool/ImageProcessor.kt:74-91 | cutting the upper wallpaper never fails and gives the crop size, unresized |
| ImageProcessor.LowerScreenCrop | app/src/main/java/com/adam/thorwallpapertool/ImageProcessor.kt:97-115 | the lower crop is centred, starts at row 1080 + gap, and moves up to end on the bottom row when it would overrun; it never ends below the bitmap |
| ImageProcessor.CreateLowerScreenBitmapForPpi | app/src/main/java/com/adam/thorwallpapertool/ImageProcessor.kt:97-127 | the result is always 1240x1080, and the call succeeds exactly when the crop height is positive and the crop does not start above the bitmap |
| ImageProcessor.CreateLowerScreenBitmap | app/src/main/java/com/adam/thorwallpapertool/ImageProcessor.kt:133-135 | the same routine with a 1080-row crop, with its exact success condition |
| ImageProcessor.ProcessWallpaper | app/src/main/java/com/adam/thorwallpapertool/ImageProcessor.kt:31-69 | succeeds exactly when gap >= -1080; then the lower wallpaper is 1240x1080 and the upper one 1920 wide by min(1080, canvas height) |
| ImageProcessor.CanvasCropsForNonNegativeGap | app/src/main/java/com/adam/thorwallpapertool/ImageProcessor.kt:65-66 | for a gap >= 0 on the processor's canvas, the upper crop is exactly the top 1920x1080 block; the lower crop is the centred 1240x874 band starting `gap` rows below it and ending on the last row |
| CropPreview.LowerPhysicalEquivalentHeight | app/src/main/java/com/adam/thorwallpapertool/CropPreviewView.kt:109-112 | 1080 rows divided by 367/297, truncated: 874 |
| CropPreview.LowerPhysicalEquivalentWidth | app/src/main/java/com/adam/thorwallpapertool/CropPreviewView.kt:109-113 | 1240 columns divided by 367/297, truncated: 1003 |
| CropPreview.TargetCropWidth | app/src/main/java/com/adam/thorwallpapertool/CropPreviewView.kt:122 | the wider of the upper panel and the lower physical width: 1920 |
| CropPreview.TotalPhysicalHeight | app/src/main/java/com/adam/thorwallpapertool/CropPreviewView.kt:116-119 | the upper panel, the gap and the 874-row lower equivalent |
| CropPreview.ActualCropSize | app/src/main/java/com/adam/thorwallpapertool/CropPreviewView.kt:124-141 | a small source gets a crop that fits in it, fills one axis and keeps the target aspect ratio up to truncation; a large source is used whole |
| CropPreview.UpperCropHeight | app/src/main/java/com/adam/thorwallpapertool/CropPreviewView.kt:148 | the upper rows are the (1080 + gap) / totalPhysicalHeight share of the crop height, rounded down: `u * tph <= (1080 + gap) * ch < (u + 1) * tph`; for a gap >= 0 they leave at least one crop row for the lower panel |
| CropPreview.GapInCropPixels | app/src/main/java/com/adam/thorwallpapertool/CropPreviewView.kt:153-155 | for a gap >= 0 the gap rows are the gap / (1080 + gap) share of the upper rows, rounded down, and so at most the upper rows; at gap -1080 the NaN ratio truncates to 0 |
| CropPreview.LowerCropWidth | app/src/main/java/com/adam/thorwallpapertool/CropPreviewView.kt:162 | the lower width is the 1003 / 1920 share of the crop width, rounded down, and so at most the crop width |
| CropPreview.UpperShare | app/src/main/java/com/adam/thorwallpapertool/CropPreviewView.kt:148-150 | a truncated share uh/tph < 1 of n >= 1 rows is below n |
| CropPreview.GapShare | app/src/main/java/com/adam/thorwallpapertool/CropPreviewView.kt:153-155 | a truncated share gap/uh <= 1 of u rows is between 0 and u |
| CropPreview.Layout | app/src/main/java/com/adam/thorwallpapertool/CropPreviewView.kt:124-163 | the lower part is what the upper share leaves of the crop, never less than one row, and the lower width is centred in the crop width |
| CropPreview.AreasOf | app/src/main/java/com/adam/thorwallpapertool/CropPreviewView.kt:166-174 | the upper, gap and lower boxes touch in that order; the gap box spans the upper box's columns; upper plus gap is the upper share; the lower box has the lower part's width and height at the lower offset |
| CropPreview.CropCentredInSource | app/src/main/java/com/adam/thorwallpapertool/CropPreviewView.kt:144-145 | the crop rectangle lies inside the source and is centred; any odd pixel goes to the right or bottom margin |
| CropPreview.SplitForNonNegativeGap | app/src/main/java/com/adam/thorwallpapertool/CropPreviewView.kt:148-174 | for a gap >= 0 the one-row fallback never applies: the upper box, gap box and lower box are vertically adjacent, the lower box ends on the crop's last row, and upper plus gap make the upper share |
| CropPreview.AreasInsideSource | app/src/main/java/com/adam/thorwallpapertool/CropPreviewView.kt:159-174 | for a gap >= 0 all three regions are well-formed and inside the source; the lower region lies within the upper region's columns and is centred under it |
| CropPreview.CropAreasStacked | app/src/main/java/com/adam/thorwallpapertool/CropPreviewView.kt:91-174 | the regions of `calculateCropAreas` are stacked upper, gap, lower inside the source |
| CropPreview.Project | app/src/main/java/com/adam/thorwallpapertool/CropPreviewView.kt:181-189 | the mapping `p * scale + offset` scales every box's width and height by the scale |
| CropPreview.PlaceMonotone | app/src/main/java/com/adam/thorwallpapertool/CropPreviewView.kt:181-189 | the source-to-view mapping `p * scale + offset` preserves order at a positive scale |
| CropPreview.ProjectOrdered | app/src/main/java/com/adam/thorwallpapertool/CropPreviewView.kt:181-189 | a well-formed source box maps to a well-formed view rectangle |
| CropPreview.ProjectWithin | app/src/main/java/com/adam/thorwallpapertool/CropPreviewView.kt:181-189 | containment of boxes is preserved by the mapping |
| CropPreview.ProjectColumns | app/src/main/java/com/adam/thorwallpapertool/CropPreviewView.kt:186-188 | a box within another's columns stays within them after mapping |
| CropPreview.ProjectAdjacent | app/src/main/java/com/adam/thorwallpapertool/CropPreviewView.kt:192-193 | boxes sharing an edge map to rectangles sharing an edge, so the gap rectangle spans from the upper bottom to the lower top |
| CropPreview.ProjectOrigin | app/src/main/java/com/adam/thorwallpapertool/CropPreviewView.kt:181-184 | the whole source maps to the scaled image's rectangle at its offset |
| CropPreview.FitToView | app/src/main/java/com/adam/thorwallpapertool/CropPreviewView.kt:64-78 | the contain fit keeps the aspect ratio, fits in the view, fills it on one axis and is centred with non-negative margins |
| CropPreview.FitPlacesSource | app/src/main/java/com/adam/thorwallpapertool/CropPreviewView.kt:64-78 | the contain fit places the whole bitmap, anchored at the origin, in the view |
| CropPreview.ImageIsProjectedSource | app/src/main/java/com/adam/thorwallpapertool/CropPreviewView.kt:72-78 | the drawn image rectangle is the source box mapped through the fit |
| CropPreview.FittedImage | app/src/main/java/com/adam/thorwallpapertool/CropPreviewView.kt:64-89 | whatever the regions, the image drawn through the contain fit is the whole source mapped, at a positive scale |
| CropPreview.Preview | app/src/main/java/com/adam/thorwallpapertool/CropPreviewView.kt:64-89 | the display after a successful refit shows the scaled copy, at a positive scale, and the image rectangle is the whole source mapped through the placement |
| CropPreview.ScaledCopyFailsBelowHalf | app/src/main/java/com/adam/thorwallpapertool/CropPreviewView.kt:81-84 | the scaled copy throws exactly when a scaled side is below half a pixel, since `Math.round` makes it 0 |
| CropPreview.ThinBitmapCopyFails | app/src/main/java/com/adam/thorwallpapertool/CropPreviewView.kt:68-84 | a 4000x1 bitmap in a 1000x600 view is scaled to a quarter-pixel height, and the copy throws |
| CropPreview.OverlayRectsStacked | app/src/main/java/com/adam/thorwallpapertool/CropPreviewView.kt:195-215 | mapped stacked regions give well-formed rectangles, upper on gap on lower, with the lower within the upper's columns |
| CropPreview.OverlayRectsOnImage | app/src/main/java/com/adam/thorwallpapertool/CropPreviewView.kt:195-215 | mapped regions lie on the drawn image, and the image lies in the view |
| CropPreview.OverlayOfStacked | app/src/main/java/com/adam/thorwallpapertool/CropPreviewView.kt:181-215 | stacked source regions, mapped through a placement of the source, give an overlay drawn on the image |
| CropPreview.PreviewOverlayOnImage | app/src/main/java/com/adam/thorwallpapertool/CropPreviewView.kt:64-218 | for any bitmap, view size and gap >= 0, the three preview rectangles are stacked, well-formed, on the scaled image and inside the view |
| CropPreview.ScaledHeight | app/src/main/java/com/adam/thorwallpapertool/CropPreviewView.kt:235-236 | the height scaled to the content width, truncated, is the whole number of rows: q*w <= h*width < (q+1)*w |
| CropPreview.MeasuredDimension | app/src/main/java/com/adam/thorwallpapertool/CropPreviewView.kt:227-244 | with a bitmap and a positive content width, the width is kept and the content height is the scaled height, but never below 200; otherwise the default measurement stands |
| CropPreview.CropPreviewView.constructor | app/src/main/java/com/adam/thorwallpapertool/CropPreviewView.kt:14-54 | a new view has no bitmap, gap 0, size 0, scale 1 and empty rectangles |
| CropPreview.CropPreviewView.SetBitmap | app/src/main/java/com/adam/thorwallpapertool/CropPreviewView.kt:56-62 | stores the bitmap and gap; with a non-empty view it throws exactly when the scaled copy fails, and then only the placement is new, otherwise the display becomes the preview of the new bitmap; with an empty view the display is unchanged |
| CropPreview.CropPreviewView.OnSizeChanged | app/src/main/java/com/adam/thorwallpapertool/CropPreviewView.kt:220-225 | stores the size; with a bitmap and a non-empty size it throws exactly when the scaled copy fails, and then only the placement is new, otherwise the display becomes the preview at that size |
| CropPreview.CropPreviewView.CalculateScaledBitmap | app/src/main/java/com/adam/thorwallpapertool/CropPreviewView.kt:64-89 | with a bitmap and a non-empty view the placement fields take the contain fit; if the scaled copy fails it throws with the copy and overlay of before, otherwise the overlay is recomputed; without them nothing changes |
| CropPreview.CropPreviewView.CalculateCropAreas | app/src/main/java/com/adam/thorwallpapertool/CropPreviewView.kt:91-218 | with a bitmap, the three rectangles are the source regions mapped through the current placement; only the rectangles change |
| MainActivity.CalculateInSampleSize | app/src/main/java/com/adam/thorwallpapertool/MainActivity.kt:115-130 | a power of two, 1 when the source does not exceed the request; otherwise the first power of two at which the loop condition fails, every smaller one satisfies it, and half the result still meets the request |
| MainActivity.PreviewSampleSize | app/src/main/java/com/adam/thorwallpapertool/MainActivity.kt:88-92 | the preview request of 800 by 600 is positive, so the factor is always defined: 1 for a source within 800 by 600, otherwise a power of two at which the loop stops, with half of it still meeting both sides of the request |
| MainActivity.Div | app/src/main/java/com/adam/thorwallpapertool/MainActivity.kt:124 | Kotlin Int division by a positive divisor truncates toward zero: the quotient times the divisor is within one divisor of the dividend, on the dividend's side of zero |
| MainActivity.DoublingKeepsMinimal | app/src/main/java/com/adam/thorwallpapertool/MainActivity.kt:124-126 | one more doubling keeps every smaller power of two satisfying the loop condition |
| MainActivity.DoublingBounded | app/src/main/java/com/adam/thorwallpapertool/MainActivity.kt:124-126 | while the loop runs, the factor is at most the halved side with a positive request, so the loop ends |
| MainActivity.PowerBelowDouble | app/src/main/java/com/adam/thorwallpapertool/MainActivity.kt:124-126 | no power of two lies strictly between s and 2s |
| MainActivity.HalfOfPower | app/src/main/java/com/adam/thorwallpapertool/MainActivity.kt:125 | halving a power of two above 1 gives a smaller power of two |
| MainActivity.IsWhitespace | app/src/main/java/com/adam/thorwallpapertool/MainActivity.kt:135 | Kotlin `Char.isWhitespace`: space, tab, newline, carriage return and the Unicode spaces are whitespace; digits and signs are not |
| MainActivity.TrimStart | app/src/main/java/com/adam/thorwallpapertool/MainActivity.kt:135 | the result is a suffix; all that was removed is whitespace, and it does not start with whitespace |
| MainActivity.TrimEnd | app/src/main/java/com/adam/thorwallpapertool/MainActivity.kt:135 | the result is a prefix; all that was removed is whitespace, and it does not end with whitespace |
| MainActivity.Trim | app/src/main/java/com/adam/thorwallpapertool/MainActivity.kt:135 | the trimmed text is empty or starts and ends with non-whitespace |
| MainActivity.TrimPadded | app/src/main/java/com/adam/thorwallpapertool/MainActivity.kt:135 | whitespace around a text with non-whitespace ends is exactly what trimming removes |
| MainActivity.TrimStartPadded | app/src/main/java/com/adam/thorwallpapertool/MainActivity.kt:135 | leading whitespace before a non-whitespace character is exactly what the start trim removes |
| MainActivity.TrimEndPadded | app/src/main/java/com/adam/thorwallpapertool/MainActivity.kt:135 | trailing whitespace after a non-whitespace character is exactly what the end trim removes |
| MainActivity.BlankTrimsToEmpty | app/src/main/java/com/adam/thorwallpapertool/MainActivity.kt:135-136 | blank text trims to the empty string |
| MainActivity.DigitsValue | app/src/main/java/com/adam/thorwallpapertool/MainActivity.kt:138 | the value of n decimal digits is below 10^n |
| MainActivity.ParseInt | app/src/main/java/com/adam/thorwallpapertool/MainActivity.kt:138 | a parsed value fits an Int and comes from an optionally signed run of digits; "", "-" and "+" are rejected |
| MainActivity.ParseGap | app/src/main/java/com/adam/thorwallpapertool/MainActivity.kt:135-142 | blank or unparsable text gives 0; otherwise the parsed Int of the trimmed text |
| MainActivity.Decimal | app/src/main/java/com/adam/thorwallpapertool/MainActivity.kt:138 | a non-empty run of digits without leading zeros (the inverse used for the round trip) |
| MainActivity.Format | app/src/main/java/com/adam/thorwallpapertool/MainActivity.kt:138 | a signed decimal with non-whitespace ends |
| MainActivity.DecimalValue | app/src/main/java/com/adam/thorwallpapertool/MainActivity.kt:138 | reading the digits of n gives n back |
| MainActivity.ParseSigned | app/src/main/java/com/adam/thorwallpapertool/MainActivity.kt:138 | a sign and digits parse to the signed value exactly when it fits an Int |
| MainActivity.ParsePlus | app/src/main/java/com/adam/thorwallpapertool/MainActivity.kt:138 | a leading `+` before digits parses like the digits alone |
| MainActivity.ParseFormat | app/src/main/java/com/adam/thorwallpapertool/MainActivity.kt:138 | every Int written in decimal parses back to itself, a non-negative one also with a leading `+`; every integer outside the Int range is rejected |
| MainActivity.ParseGapOfFormat | app/src/main/java/com/adam/thorwallpapertool/MainActivity.kt:135-142 | any Int typed with surrounding whitespace, a non-negative one also with a `+`, is read back as itself; an out-of-range number or blank text is read as 0 |
| MonkeyAnalyzer.StabilityScore | scripts/ai_monkey_analyzer.py:61-69 | the score lies between 0 and 100, and is 100 exactly when no exception, ANR or crash was found |
| MonkeyAnalyzer.Band | scripts/ai_monkey_analyzer.py:83-94 | each status band holds exactly its score range: >= 90, 70-89, 50-69, below 50 |
| MonkeyAnalyzer.BandAdvice | scripts/ai_monkey_analyzer.py:83-94 | each band gets its own closing message, exactly one per band |
| MonkeyAnalyzer.DeductPenalties | scripts/ai_monkey_analyzer.py:60-69 | subtracting each found kind's capped penalty from 100 and clamping at 0 gives exactly the closed-form score |
| MonkeyAnalyzer.AiAnalysis | scripts/ai_monkey_analyzer.py:43-106 | the stepwise score equals the closed form; the status is its band; the advice is the issue advice (crashes, ANRs, exceptions, each exactly when found) followed by the band's message |
| MonkeyAnalyzer.IssueAdvice | scripts/ai_monkey_analyzer.py:74-81 | one advice per kind of problem found and none otherwise, crashes first and exceptions last |
| MonkeyAnalyzer.IssueAdviceMembers | scripts/ai_monkey_analyzer.py:74-81 | each problem advice appears exactly when that problem was found, and the list has one entry per problem plus the band message |
| MonkeyAnalyzer.ScoreMonotone | scripts/ai_monkey_analyzer.py:61-69 | more problems of any kind never raise the score |
| MonkeyAnalyzer.CrashPenalty | scripts/ai_monkey_analyzer.py:66-67 | any crash caps the score at 80, three or more at 50 |
| MonkeyAnalyzer.RunAnalyzer | scripts/ai_monkey_analyzer.py:108-182 | no argument or a missing directory exits 1 without analysis; otherwise missing logs count as clean, and the exit code is 1 exactly when the score is below 70 |
| MonkeyAnalyzer.MonkeyResultsOf | scripts/ai_monkey_analyzer.py:119-138 | the event count is the one found in the output, or 500 when the output or the number is missing |
| MonkeyAnalyzer.PassingBands | scripts/ai_monkey_analyzer.py:177-182 | the run passes exactly when the band is Excellent or Good |
| MonkeyAnalyzer.CleanLogPasses | scripts/ai_monkey_analyzer.py:61-94 | a clean log scores in the top band, and three or more crashes fail the run |
| MonkeyTest.DefaultWeights | scripts/ai_monkey_test.py:24-29 | the four strategies, each with a weight strictly between 0 and 1 |
| MonkeyTest.WeightsSumToOne | scripts/ai_monkey_test.py:24-29 | taken exactly, the weights sum to 1 |
| MonkeyTest.Count | scripts/ai_monkey_test.py:145-152 | a strategy's count never exceeds the number of recorded events |
| MonkeyTest.CountAppend | scripts/ai_monkey_test.py:148-150 | recording one action adds one to its strategy's count and leaves the others |
| MonkeyTest.CountAppendTwice | scripts/ai_monkey_test.py:113-124 | recording an action twice adds two to its strategy's count |
| MonkeyTest.CountsSum | scripts/ai_monkey_test.py:131-133 | the four strategy counts add up to the number of recorded events |
| MonkeyTest.AssessRisks | scripts/ai_monkey_test.py:205-214 | the crash risk is low exactly when any event ran and unknown otherwise; the other levels are fixed |
| MonkeyTest.AdviceThresholds | scripts/ai_monkey_test.py:197-201 | the UI advice is due exactly when under 3 in 10 events were UI interactions, the stress advice exactly when under 1 in 10 were stress events |
| MonkeyTest.AiMonkeyTester.constructor | scripts/ai_monkey_test.py:17-32 | a new tester has the default weights and no recorded events |
| MonkeyTest.AiMonkeyTester.ExecuteAction | scripts/ai_monkey_test.py:87-124 | the action is recorded once; when reporting it fails but the handler's report succeeds, it is marked with the error and appears twice; when the handler's report fails too, the exception escapes and the action stays recorded once, unmarked; only its strategy's count changes |
| MonkeyTest.AiMonkeyTester.AnalyzeStrategyDistribution | scripts/ai_monkey_test.py:145-152 | a strategy is a key exactly when some recorded action used it, with the number that did |
| MonkeyTest.AiMonkeyTester.SaveTestResults | scripts/ai_monkey_test.py:126-134 | the results hold the package, the event total and the distribution, whose values sum to the total |
| MonkeyTest.AiMonkeyTester.AnalyzeStrategyEffectiveness | scripts/ai_monkey_test.py:173-183 | exactly the strategies with a positive count are scored, with their count and min(count/10, 1), which lies in (0, 1] |
| MonkeyTest.AiMonkeyTester.GenerateRecommendations | scripts/ai_monkey_test.py:185-203 | the list built by appending is exactly the advice list `Recommendations` |
| MonkeyTest.Recommendations | scripts/ai_monkey_test.py:185-203 | the first advice says whether there were more than 500 events; UI advice and stress advice follow, each exactly when its strategy's share is under 30% or 10% |
| MonkeyTest.AiMonkeyTester.GenerateAiReport | scripts/ai_monkey_test.py:154-171 | the report carries the event total; the effectiveness of exactly the strategies used, each with its count and min(count/10, 1); exactly the advice list `Recommendations`; and the risk summary |

## Left out

- Pixels: drawing, filtering, the `Matrix` scaling and every other pixel operation. A bitmap is its size, a crop its rectangle.
- Float rounding. Floats are exact reals, so a result that lands within one float ulp of an integer may truncate or round differently on a device.
- Int overflow. Widths, heights and gaps are unbounded integers, apart from the Int range that `ParseInt` checks.
- ImageProcessor.ProcessWallpaper: allocation failure is not modelled. Its success condition assumes unbounded memory. On a device, the scaled copy (ImageProcessor.kt:53) and the 1920 by (1954 + gap) canvas (:56) can throw `OutOfMemoryError` for a large gap or source. That error is not an `Exception`, so the caller's catch does not handle it.
- CropPreview.ActualCropSize, CropPreview.Preview and the view's methods require a gap other than -1954. At -1954 `totalPhysicalHeight` is 0, and the Float divisions produce infinities that the model does not represent.
- CropPreview.UpperCropHeight, CropPreview.GapInCropPixels, CropPreview.SplitForNonNegativeGap and the layout lemmas state their bounds for gaps >= 0 only. UpperCropHeight's rounded-down share also holds down to gap -1080. Other negative gaps are computed, but nothing is proved about them.
- CropPreview.CropPreviewView: the scaled bitmap copy is kept only as whether it exists. Its rounded size decides only whether making it throws; its pixels play no part in the overlay.
- `requestLayout()`, `invalidate()`, `onDraw` and the labels are not modelled. `onMeasure`'s fallback to the base view's measurement is `None`.
- MainActivity.CalculateInSampleSize requires a positive requested width or height, and the only caller passes 800 by 600. With both 0, the Kotlin factor doubles until the Int wraps to 0, and the division then throws `ArithmeticException`. The model has unbounded integers and does not represent that.
- MainActivity.ParseInt accepts ASCII digits only. `Integer.parseInt` also accepts other Unicode decimal digits.
- MainActivity.Trim states that the result has non-whitespace ends. That the removed parts are whitespace is stated only for padded input, by TrimPadded and BlankTrimsToEmpty.
- The rest of MainActivity is not modelled: image picking, decoding, saving to the gallery, permissions and the progress UI. `ImageProcessor.rotateBitmap` is not modelled either.
- MonkeyTest.Recommendations and MonkeyTest.AiMonkeyTester.GenerateRecommendations compare counts with the exact products `total * 0.3` and `total * 0.1`. Python compares with the float products, and the rounding of those products is not modelled.
- MonkeyTest.WeightsSumToOne: the weights sum to exactly 1 only as reals. In Python floats they sum to 0.9999999999999999.
- MonkeyTest.AiMonkeyTester.ExecuteAction models how reporting goes as a parameter, and the escaping exception as a result. The console printing that can raise is left out. So is the caller `run_monkey_test`, which an escaping exception would cut off before it saves the results.
  - The adb command strings are left out too: they are built but never executed.
- `run_monkey_test` is left out: its clock-bounded loop and the random `select_action` depend on time and randomness.
  - `print_summary`, the JSON files and the timestamps are left out too.
- MonkeyAnalyzer: reading the log files and the regular-expression scan (`analyze_logcat`) are left out. The matches arrive as lists, and the events count arrives as an optional number.
  - The printed report and the JSON file are left out too.
- The separate test analyzer script, the build files, the website and the documentation are not part of this model.
