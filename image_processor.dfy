/**
 * The production wallpaper geometry (`ImageProcessor`): one source bitmap is
 * cover-fitted onto a combined canvas that stacks the upper panel, the gap and
 * a density-compensated lower band; the upper wallpaper is cut from the top of
 * the canvas and the lower wallpaper from the band below the gap, then resized
 * to the lower panel's resolution. Pixels are not modelled: every bitmap is its
 * size, every crop its rectangle.
 */
module ImageProcessor {
  import opened Numerics
  import opened Graphics
  import DeviceConfig

  // The object keeps its own copy of the panel parameters.
  const UpperScreenWidth: int := 1920
  const UpperScreenHeight: int := 1080
  const LowerScreenWidth: int := 1240
  const LowerScreenHeight: int := 1080
  const UpperScreenPpi: real := 367.0
  const LowerScreenPpi: real := 297.0

  /** The copies agree with `DeviceConfig`. */
  lemma ConstantsMatchDeviceConfig()
    ensures UpperScreenWidth == DeviceConfig.UpperScreenWidth
    ensures UpperScreenHeight == DeviceConfig.UpperScreenHeight
    ensures LowerScreenWidth == DeviceConfig.LowerScreenWidth
    ensures LowerScreenHeight == DeviceConfig.LowerScreenHeight
    ensures UpperScreenPpi == DeviceConfig.UpperScreenPpi
    ensures LowerScreenPpi == DeviceConfig.LowerScreenPpi
  {
  }

  /** `ppiScaleFactor`: the lower panel's density relative to the upper one (297/367). */
  function PpiScaleFactor(): (r: real)
    ensures r == DeviceConfig.LowerToUpperPpiRatio()
    ensures 0.808 <= r <= 0.810
  {
    ConstantsMatchDeviceConfig();
    LowerScreenPpi / UpperScreenPpi
  }

  /** `combinedWidth`: wide enough for either panel, independent of gap and source. */
  function CombinedWidth(): (w: int)
    ensures w >= UpperScreenWidth && w >= LowerScreenWidth
    ensures w == UpperScreenWidth || w == LowerScreenWidth
    ensures w == 1920
  {
    Max(UpperScreenWidth, LowerScreenWidth)
  }

  /**
   * `scaledLowerHeight`: the lower panel's 1080 rows shrunk by the density
   * ratio, truncated: floor(1080 * 297 / 367) = 874.
   */
  function ScaledLowerHeight(): (h: int)
    ensures h as real <= LowerScreenHeight as real * PpiScaleFactor() < h as real + 1.0
    ensures h == 874
  {
    ToInt(LowerScreenHeight as real * PpiScaleFactor())
  }

  /** `combinedHeight`: upper panel, then the gap, then the compensated lower band. */
  function CombinedHeight(gap: int): (h: int)
    ensures h - gap == UpperScreenHeight + 874
  {
    UpperScreenHeight + gap + ScaledLowerHeight()
  }

  /** A wider gap makes a strictly taller canvas and leaves its width alone. */
  lemma CanvasGrowsWithGap(gap1: int, gap2: int)
    requires gap1 < gap2
    ensures CombinedHeight(gap1) < CombinedHeight(gap2)
    ensures CombinedHeight(gap2) - CombinedHeight(gap1) == gap2 - gap1
  {
  }

  /** How the source is scaled and placed on the combined canvas. */
  datatype CoverFit = CoverFit(
    scaleForWidth: real,
    scaleForHeight: real,
    scale: real,
    scaledWidth: int,
    scaledHeight: int,
    bitmapX: real,
    bitmapY: real)

  /**
   * The cover fit of `processWallpaper`: the larger of the two axis ratios, so
   * the scaled source reaches both canvas edges on the dominant axis and
   * overhangs on the other; it is drawn centred, at non-positive offsets, and
   * so covers the whole canvas.
   */
  function FitToCanvas(original: Bitmap, gap: int): (f: CoverFit)
    ensures f.scaleForWidth == CombinedWidth() as real / original.width as real
    ensures f.scaleForHeight == CombinedHeight(gap) as real / original.height as real
    ensures f.scaledWidth as real <= original.width as real * f.scale < f.scaledWidth as real + 1.0
    ensures f.scaledHeight as real <= original.height as real * f.scale < f.scaledHeight as real + 1.0
    ensures f.bitmapX == (CombinedWidth() - f.scaledWidth) as real / 2.0
    ensures f.bitmapY == (CombinedHeight(gap) - f.scaledHeight) as real / 2.0
    ensures f.scale > 0.0
    ensures f.scale >= f.scaleForWidth && f.scale >= f.scaleForHeight
    ensures f.scale == f.scaleForWidth || f.scale == f.scaleForHeight
    ensures f.scaledWidth >= CombinedWidth() && f.scaledHeight >= CombinedHeight(gap)
    ensures f.scale == f.scaleForWidth ==> f.scaledWidth == CombinedWidth()
    ensures f.scale == f.scaleForHeight ==> f.scaledHeight == CombinedHeight(gap)
    ensures f.bitmapX <= 0.0 && f.bitmapY <= 0.0
    ensures f.bitmapX + f.scaledWidth as real >= CombinedWidth() as real
    ensures f.bitmapY + f.scaledHeight as real >= CombinedHeight(gap) as real
  {
    var cw := CombinedWidth();
    var ch := CombinedHeight(gap);
    var scaleForWidth := cw as real / original.width as real;
    var scaleForHeight := ch as real / original.height as real;
    var scale := MaxR(scaleForWidth, scaleForHeight);
    CoverAxis(original.width, cw, scaleForWidth, scale);
    CoverAxis(original.height, ch, scaleForHeight, scale);
    var scaledWidth := ToInt(original.width as real * scale);
    var scaledHeight := ToInt(original.height as real * scale);
    CoverFit(scaleForWidth, scaleForHeight, scale, scaledWidth, scaledHeight,
             (cw - scaledWidth) as real / 2.0, (ch - scaledHeight) as real / 2.0)
  }

  /**
   * One axis of the cover fit: a scale at least `target / len` stretches `len`
   * to at least `target`, exactly to it at that ratio, and the truncated length
   * is still at least `target`.
   */
  lemma CoverAxis(len: Pos, target: int, ratio: real, scale: real)
    requires ratio == target as real / len as real && scale >= ratio
    ensures len as real * scale >= target as real
    ensures scale == ratio ==> len as real * scale == target as real
    ensures ToInt(len as real * scale) >= target
  {
    assert len as real * ratio == target as real;
    MulAtLeast(len as real, ratio, scale);
    ToIntAtLeast(len as real * scale, target);
  }

  lemma MulAtLeast(c: real, a: real, b: real)
    requires c > 0.0 && a <= b
    ensures c * a <= c * b
  {
  }

  /**
   * The cover scale is the smallest that covers: at any smaller positive
   * scale the source falls short of the canvas on at least one axis.
   */
  lemma CoverScaleIsLeast(original: Bitmap, gap: int, s: real)
    requires 0.0 < s < FitToCanvas(original, gap).scale
    ensures original.width as real * s < CombinedWidth() as real
         || original.height as real * s < CombinedHeight(gap) as real
  {
    var f := FitToCanvas(original, gap);
    if f.scale == f.scaleForWidth {
      assert original.width as real * f.scaleForWidth == CombinedWidth() as real;
      StrictlyLess(s, f.scale, original.width as real);
    } else {
      assert original.height as real * f.scaleForHeight == CombinedHeight(gap) as real;
      StrictlyLess(s, f.scale, original.height as real);
    }
  }

  lemma StrictlyLess(a: real, b: real, c: real)
    requires a < b && c > 0.0
    ensures c * a < c * b
  {
  }

  /** The crop rectangle of `createUpperScreenBitmap`: top-aligned, horizontally centred. */
  function UpperScreenCrop(bitmap: Bitmap): (c: Crop)
    ensures c.width == Min(UpperScreenWidth, bitmap.width)
    ensures c.height == Min(UpperScreenHeight, bitmap.height)
    ensures c.y == 0
    ensures CropFits(bitmap, c)
    ensures c.x + c.width + c.x <= bitmap.width <= c.x + c.width + c.x + 1
  {
    var cropWidth := Min(UpperScreenWidth, bitmap.width);
    var cropHeight := Min(UpperScreenHeight, bitmap.height);
    var x := Max(0, Half(bitmap.width - cropWidth));
    Crop(x, 0, cropWidth, cropHeight)
  }

  /** `createUpperScreenBitmap`: the crop itself, never resized and never failing. */
  function CreateUpperScreenBitmap(bitmap: Bitmap): (r: Result<Bitmap>)
    ensures r.Ok?
    ensures r.value.width == Min(UpperScreenWidth, bitmap.width)
    ensures r.value.height == Min(UpperScreenHeight, bitmap.height)
  {
    CreateBitmapRegion(bitmap, UpperScreenCrop(bitmap))
  }

  /**
   * The crop rectangle of `createLowerScreenBitmapForPPI`: horizontally
   * centred, starting at row 1080 + gap; when that would overrun the bitmap it
   * is moved up to end on the bottom row, and its height is never reduced. A
   * gap below -1080 leaves the start row negative.
   */
  function LowerScreenCrop(bitmap: Bitmap, gap: int, scaledLowerHeight: int): (c: Crop)
    ensures c.width == Min(LowerScreenWidth, bitmap.width)
    ensures c.height == Min(scaledLowerHeight, bitmap.height)
    ensures c.x >= 0 && c.x + c.width + c.x <= bitmap.width <= c.x + c.width + c.x + 1
    ensures UpperScreenHeight + gap + c.height <= bitmap.height ==> c.y == UpperScreenHeight + gap
    ensures UpperScreenHeight + gap + c.height > bitmap.height ==> c.y + c.height == bitmap.height
    ensures c.y + c.height <= bitmap.height
  {
    var cropWidth := Min(LowerScreenWidth, bitmap.width);
    var cropHeight := Min(scaledLowerHeight, bitmap.height);
    var x := Max(0, Half(bitmap.width - cropWidth));
    var startY := UpperScreenHeight + gap;
    var y := if startY + cropHeight > bitmap.height then Max(0, bitmap.height - cropHeight) else startY;
    Crop(x, y, cropWidth, cropHeight)
  }

  /**
   * `createLowerScreenBitmapForPPI`: the lower crop resized to the lower
   * panel's resolution. It fails (Android throws) exactly when the crop height
   * is not positive or the crop starts above the bitmap.
   */
  function CreateLowerScreenBitmapForPpi(bitmap: Bitmap, gap: int, scaledLowerHeight: int): (r: Result<Bitmap>)
    ensures r.Ok? ==> r.value == Bitmap(LowerScreenWidth, LowerScreenHeight)
    ensures r.Ok? <==> (scaledLowerHeight > 0 &&
      (UpperScreenHeight + gap >= 0 ||
       UpperScreenHeight + gap + Min(scaledLowerHeight, bitmap.height) > bitmap.height))
  {
    match CreateBitmapRegion(bitmap, LowerScreenCrop(bitmap, gap, scaledLowerHeight))
    case Err(e) => Err(e)
    case Ok(lowerBitmap) => CreateScaledBitmap(lowerBitmap, LowerScreenWidth, LowerScreenHeight)
  }

  /** `createLowerScreenBitmap`: the same routine with a crop height of 1080 rows. */
  function CreateLowerScreenBitmap(bitmap: Bitmap, gap: int): (r: Result<Bitmap>)
    ensures r.Ok? ==> r.value == Bitmap(LowerScreenWidth, LowerScreenHeight)
    ensures r.Ok? <==> (UpperScreenHeight + gap >= 0 ||
      UpperScreenHeight + gap + Min(LowerScreenHeight, bitmap.height) > bitmap.height)
  {
    CreateLowerScreenBitmapForPpi(bitmap, gap, LowerScreenHeight)
  }

  datatype Wallpapers = Wallpapers(upper: Bitmap, lower: Bitmap)

  /**
   * `processWallpaper`: scale the source to cover the combined canvas, draw it
   * centred, cut both wallpapers. With a gap of -1080 or more every Android
   * call's checks pass; the lower wallpaper always has the lower panel's
   * resolution, the upper one is the panel's width by at most its height (it
   * is shorter only when a negative gap makes the canvas shorter than 1080).
   */
  function ProcessWallpaper(original: Bitmap, gap: int): (r: Result<Wallpapers>)
    ensures r.Ok? <==> gap >= -UpperScreenHeight
    ensures r.Ok? ==> r.value.lower == Bitmap(LowerScreenWidth, LowerScreenHeight)
    ensures r.Ok? ==> r.value.upper.width == UpperScreenWidth
    ensures r.Ok? ==> r.value.upper.height == Min(UpperScreenHeight, CombinedHeight(gap))
  {
    var fit := FitToCanvas(original, gap);
    match CreateScaledBitmap(original, fit.scaledWidth, fit.scaledHeight)
    case Err(e) => Err(e)
    case Ok(_) =>
      match CreateBitmap(CombinedWidth(), CombinedHeight(gap))
      case Err(e) => Err(e)
      case Ok(combined) =>
        match (CreateUpperScreenBitmap(combined), CreateLowerScreenBitmapForPpi(combined, gap, ScaledLowerHeight()))
        case (Ok(upper), Ok(lower)) => Ok(Wallpapers(upper, lower))
        case (Err(e), _) => Err(e)
        case (_, Err(e)) => Err(e)
  }

  /**
   * On the canvas `processWallpaper` builds for a non-negative gap, the upper
   * crop is exactly the top 1920x1080 block, the lower crop is the centred
   * 1240-wide band that starts `gap` rows below it and ends on the canvas's
   * last row, and no bottom-alignment shift happens.
   */
  lemma CanvasCropsForNonNegativeGap(gap: int)
    requires gap >= 0
    ensures var canvas := Bitmap(CombinedWidth(), CombinedHeight(gap));
      && UpperScreenCrop(canvas) == Crop(0, 0, UpperScreenWidth, UpperScreenHeight)
      && LowerScreenCrop(canvas, gap, ScaledLowerHeight()) == Crop(340, UpperScreenHeight + gap, LowerScreenWidth, 874)
      && LowerScreenCrop(canvas, gap, ScaledLowerHeight()).y - UpperScreenHeight == gap
      && LowerScreenCrop(canvas, gap, ScaledLowerHeight()).y + 874 == canvas.height
  {
  }
}
