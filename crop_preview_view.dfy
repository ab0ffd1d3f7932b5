/**
 * The interactive crop overlay (`CropPreviewView`). The source bitmap is
 * contain-fitted into the view; the upper, gap and lower regions are computed
 * in source pixels by the view's own formula (inverse density ratio, a
 * shrink-to-fit crop for small sources, the whole source otherwise) and mapped
 * into view coordinates by `p * bitmapScale + offset`. This is a second,
 * independent geometry: it is not the production crop of `ImageProcessor`.
 */
module CropPreview {
  import opened Numerics
  import opened Graphics
  import DeviceConfig

  /** `ppiRatio`: upper density over lower density (367/297). */
  function PpiRatio(): real
  {
    DeviceConfig.UpperScreenPpi / DeviceConfig.LowerScreenPpi
  }

  /** `lowerPhysicalEquivalentHeight`: the lower panel's 1080 rows divided by the ratio, truncated. */
  function LowerPhysicalEquivalentHeight(): (h: int)
    ensures h as real <= DeviceConfig.LowerScreenHeight as real / PpiRatio() < h as real + 1.0
    ensures h == 874
  {
    ToInt(DeviceConfig.LowerScreenHeight as real / PpiRatio())
  }

  /** `lowerPhysicalEquivalentWidth`: the lower panel's 1240 columns divided by the ratio, truncated. */
  function LowerPhysicalEquivalentWidth(): (w: int)
    ensures w as real <= DeviceConfig.LowerScreenWidth as real / PpiRatio() < w as real + 1.0
    ensures w == 1003
  {
    ToInt(DeviceConfig.LowerScreenWidth as real / PpiRatio())
  }

  /** `targetCropWidth`: the wider of the upper panel and the lower physical equivalent. */
  function TargetCropWidth(): (w: int)
    ensures w >= DeviceConfig.UpperScreenWidth && w >= LowerPhysicalEquivalentWidth()
    ensures w == 1920
  {
    Max(DeviceConfig.UpperScreenWidth, LowerPhysicalEquivalentWidth())
  }

  /** `upperHeightWithGap`. */
  function UpperHeightWithGap(gap: int): int
  {
    DeviceConfig.UpperScreenHeight + gap
  }

  /** `totalPhysicalHeight`: upper panel, gap and the lower physical equivalent. */
  function TotalPhysicalHeight(gap: int): (h: int)
    ensures h - gap == 1080 + 874
  {
    UpperHeightWithGap(gap) + LowerPhysicalEquivalentHeight()
  }

  /**
   * The gaps whose arithmetic is modelled: at gap -1954 the total physical
   * height is 0 and the Float divisions produce infinities.
   */
  predicate GapModelled(gap: int)
  {
    TotalPhysicalHeight(gap) != 0
  }

  datatype CropSize = CropSize(width: int, height: int)

  /**
   * `actualCropWidth`/`actualCropHeight`. A source narrower or shorter than the
   * target gets the target shrunk by the smaller axis ratio: it fits in the
   * source, fills it on one axis and keeps the target's aspect ratio up to
   * truncation. A source at least as large as the target is used whole.
   */
  function ActualCropSize(original: Bitmap, gap: int): (s: CropSize)
    requires GapModelled(gap)
    ensures var tph := TotalPhysicalHeight(gap);
      tph > 0 ==>
        && 0 <= s.width <= original.width && 0 <= s.height <= original.height
        && (s.width == original.width || s.height == original.height)
    ensures var tph := TotalPhysicalHeight(gap);
      tph > 0 && (original.width < TargetCropWidth() || original.height < tph) ==>
        -tph < s.width * tph - s.height * TargetCropWidth() < TargetCropWidth()
    ensures TotalPhysicalHeight(gap) >= TargetCropWidth() ==> s.height >= 1
    ensures original.width >= TargetCropWidth() && original.height >= TotalPhysicalHeight(gap) ==>
      s == CropSize(original.width, original.height)
  {
    var tcw := TargetCropWidth();
    var tph := TotalPhysicalHeight(gap);
    if original.width < tcw || original.height < tph then
      var widthScale := original.width as real / tcw as real;
      var heightScale := original.height as real / tph as real;
      var scale := MinR(widthScale, heightScale);
      var w := ToInt(tcw as real * scale);
      var h := ToInt(tph as real * scale);
      if tph > 0 then
        SmallSourceCrop(original.width, original.height, tcw, tph, scale, w, h);
        CropSize(w, h)
      else
        CropSize(w, h)
    else
      CropSize(original.width, original.height)
  }

  lemma MulMono(a: real, b: real, c: real)
    requires a <= b && c >= 0.0
    ensures a * c <= b * c
  {
  }

  lemma MulStrict(a: real, b: real, c: real)
    requires a < b && c > 0.0
    ensures a * c < b * c
  {
  }

  /** The arithmetic behind the shrink-to-fit branch of `ActualCropSize`. */
  lemma SmallSourceCrop(ow: int, oh: int, tcw: int, tph: int, scale: real, w: int, h: int)
    requires ow > 0 && oh > 0 && tcw > 0 && tph > 0
    requires scale == MinR(ow as real / tcw as real, oh as real / tph as real)
    requires w == ToInt(tcw as real * scale) && h == ToInt(tph as real * scale)
    ensures 0 <= w <= ow && 0 <= h <= oh
    ensures w == ow || h == oh
    ensures -tph < w * tph - h * tcw < tcw
    ensures tph >= tcw ==> h >= 1
  {
    var x, y := tcw as real * scale, tph as real * scale;
    ScaledToAxis(ow, tcw, scale);
    ScaledToAxis(oh, tph, scale);
    assert w as real <= x < w as real + 1.0 && h as real <= y < h as real + 1.0;
    TruncatedProducts(x, y, w, h, tph, tcw, scale);
    if tph >= tcw {
      MulMono(tcw as real, tph as real, scale);
      assert y >= 1.0;
      ToIntAtLeast(y, 1);
    }
  }

  /** Scaling an axis of length `n` by at most `len / n` gives at most `len`, and exactly `len` at equality. */
  lemma ScaledToAxis(len: int, n: int, scale: real)
    requires len > 0 && n > 0 && 0.0 < scale <= len as real / n as real
    ensures 0.0 < n as real * scale <= len as real
    ensures scale == len as real / n as real ==> n as real * scale == len as real
    ensures 0 <= ToInt(n as real * scale) <= len
    ensures scale == len as real / n as real ==> ToInt(n as real * scale) == len
  {
    MulMono(scale, len as real / n as real, n as real);
    assert n as real * (len as real / n as real) == len as real;
    ToIntAtMost(n as real * scale, len);
  }

  /**
   * Truncating `tcw * scale` and `tph * scale` keeps the aspect ratio
   * `tcw : tph` up to one unit on either side.
   */
  lemma TruncatedProducts(x: real, y: real, w: int, h: int, a: int, b: int, scale: real)
    requires a > 0 && b > 0 && scale > 0.0
    requires x == b as real * scale && y == a as real * scale
    requires w as real <= x < w as real + 1.0 && h as real <= y < h as real + 1.0
    ensures -a < w * a - h * b < b
  {
    var ar, br := a as real, b as real;
    TruncatedTimes(x, w, a);
    TruncatedTimes(y, h, b);
    CrossProducts(ar, br, scale);
    Sandwich((w * a) as real, (h * b) as real, x * ar, y * br, ar, br);
  }

  lemma CrossProducts(a: real, b: real, scale: real)
    ensures (b * scale) * a == (a * scale) * b
  {
  }

  lemma IntProduct(i: int, j: int)
    ensures (i * j) as real == i as real * j as real
  {
  }

  /** A lower approximation `w` of `x`, within one, gives `w * c` within `c` below `x * c`. */
  lemma TruncatedTimes(x: real, w: int, c: int)
    requires w as real <= x < w as real + 1.0 && c > 0
    ensures (w * c) as real <= x * c as real < (w * c) as real + c as real
  {
    var wr, cr := w as real, c as real;
    MulMono(wr, x, cr);
    MulStrict(x, wr + 1.0, cr);
    assert (wr + 1.0) * cr == wr * cr + cr;
    IntProduct(w, c);
  }

  /** Two lower approximations of one value, each off by less than its step, differ by less than a step. */
  lemma Sandwich(wa: real, hb: real, xa: real, yb: real, a: real, b: real)
    requires wa <= xa < wa + a
    requires hb <= yb < hb + b
    requires xa == yb
    ensures -a < wa - hb < b
  {
  }

  /** Every intermediate value of `calculateCropAreas`, in source pixels. */
  datatype CropLayout = CropLayout(
    cropStartX: int,
    cropStartY: int,
    cropWidth: int,
    cropHeight: int,
    upperCropHeight: int,
    lowerCropHeight: int,
    actualUpperCropHeight: int,
    lowerCropWidth: int,
    lowerCropOffsetX: int)

  /**
   * `upperCropHeight`: the crop rows given to the upper panel, its share
   * `upperHeightWithGap / totalPhysicalHeight` of the crop height, truncated.
   * For a non-negative gap it leaves at least one row for the lower panel.
   */
  function UpperCropHeight(gap: int, cropHeight: int): (u: int)
    requires GapModelled(gap)
    ensures gap >= 0 && cropHeight >= 1 ==> 0 <= u < cropHeight
    ensures UpperHeightWithGap(gap) >= 0 && cropHeight >= 0 ==>
      u * TotalPhysicalHeight(gap) <= UpperHeightWithGap(gap) * cropHeight < (u + 1) * TotalPhysicalHeight(gap)
  {
    var uh, tph := UpperHeightWithGap(gap), TotalPhysicalHeight(gap);
    UpperShare(uh, tph, cropHeight);
    var x := uh as real / tph as real * cropHeight as real;
    if uh >= 0 && cropHeight >= 0 then
      ShareOfProduct(uh, tph, cropHeight);
      TruncatedQuotient(x, uh * cropHeight, tph);
      ToInt(x)
    else
      ToInt(x)
  }

  /**
   * `gapInCropPixels`: the gap rows scaled by `upperCropHeight / upperHeightWithGap`.
   * With gap -1080 that ratio is 0f / 0, NaN, and `NaN.toInt()` is 0. For a
   * non-negative gap the result is at most the upper share it is cut from.
   */
  function GapInCropPixels(gap: int, upperCropHeight: int): (g: int)
    ensures gap >= 0 && upperCropHeight >= 0 ==> 0 <= g <= upperCropHeight
    ensures gap >= 0 && upperCropHeight >= 0 ==>
      g * UpperHeightWithGap(gap) <= gap * upperCropHeight < (g + 1) * UpperHeightWithGap(gap)
    ensures UpperHeightWithGap(gap) == 0 ==> g == 0
  {
    var uh := UpperHeightWithGap(gap);
    if uh == 0 then 0
    else
      GapShare(gap, uh, upperCropHeight);
      var x := gap as real * (upperCropHeight as real / uh as real);
      if gap >= 0 && upperCropHeight >= 0 then
        ProductOfShare(gap, upperCropHeight, uh);
        TruncatedQuotient(x, gap * upperCropHeight, uh);
        ToInt(x)
      else
        ToInt(x)
  }

  /** `lowerCropWidth`: the crop width scaled by `lowerPhysicalEquivalentWidth / targetCropWidth`, truncated. */
  function LowerCropWidth(cropWidth: int): (w: int)
    ensures cropWidth >= 0 ==> 0 <= w <= cropWidth
    ensures cropWidth >= 0 ==>
      w * TargetCropWidth() <= cropWidth * LowerPhysicalEquivalentWidth() < (w + 1) * TargetCropWidth()
  {
    var x := cropWidth as real * LowerPhysicalEquivalentWidth() as real / TargetCropWidth() as real;
    if cropWidth >= 0 then
      assert 0.0 <= x <= cropWidth as real;
      ToIntAtMost(x, cropWidth);
      ProductOverDivisor(cropWidth, LowerPhysicalEquivalentWidth(), TargetCropWidth());
      TruncatedQuotient(x, cropWidth * LowerPhysicalEquivalentWidth(), TargetCropWidth());
      ToInt(x)
    else
      ToInt(x)
  }

  /** `a / b * c` in exact arithmetic, times `b`, is `a * c`. */
  lemma ShareOfProduct(a: int, b: int, c: int)
    requires b != 0
    ensures (a as real / b as real * c as real) * b as real == (a * c) as real
  {
    IntProduct(a, c);
  }

  /** `a * (c / b)` in exact arithmetic, times `b`, is `a * c`. */
  lemma ProductOfShare(a: int, c: int, b: int)
    requires b != 0
    ensures (a as real * (c as real / b as real)) * b as real == (a * c) as real
  {
    IntProduct(a, c);
  }

  /** `a * c / b` in exact arithmetic, times `b`, is `a * c`. */
  lemma ProductOverDivisor(a: int, c: int, b: int)
    requires b != 0
    ensures (a as real * c as real / b as real) * b as real == (a * c) as real
  {
    IntProduct(a, c);
  }

  /**
   * Truncating a non-negative quotient `num / den` gives the integer `q`
   * with `q * den <= num < (q + 1) * den`.
   */
  lemma TruncatedQuotient(x: real, num: int, den: int)
    requires den > 0 && num >= 0 && x * den as real == num as real
    ensures ToInt(x) * den <= num < (ToInt(x) + 1) * den
  {
    if x < 0.0 {
      MulStrict(x, 0.0, den as real);
    }
    var q := ToInt(x);
    TruncatedTimes(x, q, den);
    assert (q + 1) * den == q * den + den;
  }

  /**
   * The source-space arithmetic of `calculateCropAreas`. The lower part is
   * what the upper share leaves of the crop, but never less than one row; the
   * lower width is centred in the crop width (an odd pixel goes to the right).
   */
  function Layout(original: Bitmap, gap: int): (l: CropLayout)
    requires GapModelled(gap)
    ensures l.lowerCropHeight >= 1
    ensures l.cropHeight - l.upperCropHeight > 0 ==> l.lowerCropHeight == l.cropHeight - l.upperCropHeight
    ensures l.cropWidth >= 0 ==>
      && 0 <= l.lowerCropOffsetX
      && 2 * l.lowerCropOffsetX + l.lowerCropWidth <= l.cropWidth <= 2 * l.lowerCropOffsetX + l.lowerCropWidth + 1
  {
    var size := ActualCropSize(original, gap);
    var cropStartX := Max(0, Half(original.width - size.width));
    var cropStartY := Max(0, Half(original.height - size.height));
    var upperCropHeight := UpperCropHeight(gap, size.height);
    var remainingHeight := size.height - upperCropHeight;
    var lowerCropHeight := if remainingHeight > 0 then remainingHeight else 1;
    var gapInCropPixels := GapInCropPixels(gap, upperCropHeight);
    var lowerCropWidth := LowerCropWidth(size.width);
    CropLayout(cropStartX, cropStartY, size.width, size.height,
               upperCropHeight, lowerCropHeight, upperCropHeight - gapInCropPixels,
               lowerCropWidth, Half(size.width - lowerCropWidth))
  }

  /** The three regions, in source pixels. */
  datatype Areas = Areas(upper: IntBox, gap: IntBox, lower: IntBox)

  /**
   * The boxes of a layout: upper, gap and lower touch in that order, the gap
   * box spans the upper box's columns, the upper and gap boxes together are
   * the upper share, and the lower box has the lower part's size.
   */
  function AreasOf(l: CropLayout): (a: Areas)
    ensures a.upper.top == l.cropStartY && a.upper.left == l.cropStartX
    ensures a.upper.bottom == a.gap.top && a.gap.bottom == a.lower.top
    ensures a.gap.left == a.upper.left && a.gap.right == a.upper.right
    ensures a.upper.right - a.upper.left == l.cropWidth
    ensures a.gap.bottom - a.upper.top == l.upperCropHeight
    ensures a.lower.left - a.upper.left == l.lowerCropOffsetX
    ensures a.lower.right - a.lower.left == l.lowerCropWidth && a.lower.bottom - a.lower.top == l.lowerCropHeight
  {
    var lowerLeft := l.cropStartX + l.lowerCropOffsetX;
    Areas(
      IntBox(l.cropStartX, l.cropStartY, l.cropStartX + l.cropWidth, l.cropStartY + l.actualUpperCropHeight),
      IntBox(l.cropStartX, l.cropStartY + l.actualUpperCropHeight,
             l.cropStartX + l.cropWidth, l.cropStartY + l.upperCropHeight),
      IntBox(lowerLeft, l.cropStartY + l.upperCropHeight,
             lowerLeft + l.lowerCropWidth, l.cropStartY + l.upperCropHeight + l.lowerCropHeight))
  }

  function CropAreas(original: Bitmap, gap: int): Areas
    requires GapModelled(gap)
  {
    AreasOf(Layout(original, gap))
  }

  predicate Ordered(b: IntBox)
  {
    b.left <= b.right && b.top <= b.bottom
  }

  predicate BoxWithin(inner: IntBox, outer: IntBox)
  {
    outer.left <= inner.left && inner.right <= outer.right &&
    outer.top <= inner.top && inner.bottom <= outer.bottom
  }

  /**
   * The crop rectangle lies inside the source and is centred in it (any odd
   * pixel of slack goes to the right or bottom margin).
   */
  lemma CropCentredInSource(original: Bitmap, gap: int)
    requires TotalPhysicalHeight(gap) > 0
    ensures var l := Layout(original, gap);
      && 0 <= l.cropStartX && l.cropStartX + l.cropWidth + l.cropStartX <= original.width
      && original.width <= l.cropStartX + l.cropWidth + l.cropStartX + 1
      && 0 <= l.cropStartY && l.cropStartY + l.cropHeight + l.cropStartY <= original.height
      && original.height <= l.cropStartY + l.cropHeight + l.cropStartY + 1
  {
    var s := ActualCropSize(original, gap);
    assert 0 <= s.width <= original.width && 0 <= s.height <= original.height;
  }

  /**
   * The vertical split for a non-negative gap. The crop is at least one row
   * tall and the upper share is strictly smaller than it, so the lower region
   * is never the one-row fallback: it is exactly the rest of the crop and ends
   * on the crop's bottom row. The gap is cut from the bottom of the upper share,
   * so the upper box and the gap box together make up the upper share.
   */
  lemma {:induction false} SplitForNonNegativeGap(original: Bitmap, gap: int)
    requires gap >= 0
    ensures var l := Layout(original, gap);
      && 1 <= l.cropHeight
      && 0 <= l.upperCropHeight < l.cropHeight
      && l.lowerCropHeight == l.cropHeight - l.upperCropHeight
      && 0 <= l.actualUpperCropHeight <= l.upperCropHeight
    ensures var l := Layout(original, gap); var a := AreasOf(l);
      && a.upper.top == l.cropStartY
      && a.upper.bottom == a.gap.top && a.gap.bottom == a.lower.top
      && a.lower.bottom == l.cropStartY + l.cropHeight
      && (a.upper.bottom - a.upper.top) + (a.gap.bottom - a.gap.top) == l.upperCropHeight
  {
  }

  /** A share `uh / tph < 1` of `n >= 1` rows, truncated, leaves at least one row. */
  lemma UpperShare(uh: int, tph: int, n: int)
    ensures 0 <= uh < tph && n >= 1 ==> 0 <= ToInt(uh as real / tph as real * n as real) < n
  {
    if 0 <= uh < tph && n >= 1 {
      var ratio := uh as real / tph as real;
      assert 0.0 <= ratio < 1.0;
      MulMono(0.0, ratio, n as real);
      MulStrict(ratio, 1.0, n as real);
      var e := ratio * n as real;
      assert 0.0 <= e < n as real;
      var u := ToInt(e);
      assert u as real <= e;
    }
  }

  /** The gap's share `gap / uh <= 1` of `u` upper rows, truncated, is at most `u`. */
  lemma GapShare(gap: int, uh: int, u: int)
    requires uh != 0
    ensures 0 <= gap <= uh && u >= 0 ==> 0 <= ToInt(gap as real * (u as real / uh as real)) <= u
  {
    if 0 <= gap <= uh && u >= 0 {
      var g := gap as real * (u as real / uh as real);
      assert g == (gap as real / uh as real) * u as real;
      MulMono(0.0, gap as real / uh as real, u as real);
      MulMono(gap as real / uh as real, 1.0, u as real);
      ToIntAtMost(g, u);
    }
  }

  /**
   * For a non-negative gap all three regions are well-formed, lie inside the
   * source, and the lower region sits within the upper region's columns, at
   * most as wide as it and centred under it.
   */
  lemma {:induction false} AreasInsideSource(original: Bitmap, gap: int)
    requires gap >= 0
    ensures var l := Layout(original, gap); var a := AreasOf(l);
      && Ordered(a.upper) && Ordered(a.gap) && Ordered(a.lower)
      && BoxWithin(a.upper, IntBox(0, 0, original.width, original.height))
      && BoxWithin(a.gap, IntBox(0, 0, original.width, original.height))
      && BoxWithin(a.lower, IntBox(0, 0, original.width, original.height))
      && a.upper.left <= a.lower.left && a.lower.right <= a.upper.right
      && a.lower.left - a.upper.left <= a.upper.right - a.lower.right <= a.lower.left - a.upper.left + 1
  {
    var l := Layout(original, gap);
    SplitForNonNegativeGap(original, gap);
    CropCentredInSource(original, gap);
  }

  /** Source pixels to view coordinates: `p * bitmapScale + bitmapLeft/Top`. */
  function Project(b: IntBox, scale: real, left: real, top: real): (r: RectF)
    ensures r.right - r.left == (b.right - b.left) as real * scale
    ensures r.bottom - r.top == (b.bottom - b.top) as real * scale
  {
    RectF(Place(b.left, scale, left), Place(b.top, scale, top),
          Place(b.right, scale, left), Place(b.bottom, scale, top))
  }

  /** One source coordinate in view coordinates. */
  function Place(p: int, scale: real, offset: real): real
  {
    p as real * scale + offset
  }

  predicate RectOrdered(r: RectF)
  {
    r.left <= r.right && r.top <= r.bottom
  }

  predicate RectWithin(inner: RectF, outer: RectF)
  {
    outer.left <= inner.left && inner.right <= outer.right &&
    outer.top <= inner.top && inner.bottom <= outer.bottom
  }

  lemma PlaceMonotone(a: int, b: int, scale: real, offset: real)
    requires a <= b && scale > 0.0
    ensures Place(a, scale, offset) <= Place(b, scale, offset)
  {
    MulMono(a as real, b as real, scale);
  }

  /** A positive scale and a translation keep a box well-formed. */
  lemma ProjectOrdered(b: IntBox, scale: real, left: real, top: real)
    requires scale > 0.0 && Ordered(b)
    ensures RectOrdered(Project(b, scale, left, top))
  {
    PlaceMonotone(b.left, b.right, scale, left);
    PlaceMonotone(b.top, b.bottom, scale, top);
  }

  /** A positive scale and a translation keep one box inside another. */
  lemma ProjectWithin(inner: IntBox, outer: IntBox, scale: real, left: real, top: real)
    requires scale > 0.0 && BoxWithin(inner, outer)
    ensures RectWithin(Project(inner, scale, left, top), Project(outer, scale, left, top))
  {
    PlaceMonotone(outer.left, inner.left, scale, left);
    PlaceMonotone(inner.right, outer.right, scale, left);
    PlaceMonotone(outer.top, inner.top, scale, top);
    PlaceMonotone(inner.bottom, outer.bottom, scale, top);
  }

  /** The contain fit of `calculateScaledBitmap`. */
  datatype ViewFit = ViewFit(scale: real, width: real, height: real, left: real, top: real)

  /**
   * The smaller axis ratio: the scaled source keeps its aspect ratio, fits in
   * the view, fills it on one axis and is centred with non-negative offsets.
   */
  function FitToView(bitmap: Bitmap, viewWidth: Pos, viewHeight: Pos): (f: ViewFit)
    ensures f.scale > 0.0
    ensures f.width == bitmap.width as real * f.scale && f.height == bitmap.height as real * f.scale
    ensures f.width * bitmap.height as real == f.height * bitmap.width as real
    ensures 0.0 < f.width <= viewWidth as real && 0.0 < f.height <= viewHeight as real
    ensures f.width == viewWidth as real || f.height == viewHeight as real
    ensures f.left >= 0.0 && f.top >= 0.0
    ensures f.left + f.width + f.left == viewWidth as real
    ensures f.top + f.height + f.top == viewHeight as real
  {
    var widthRatio := viewWidth as real / bitmap.width as real;
    var heightRatio := viewHeight as real / bitmap.height as real;
    var scale := MinR(widthRatio, heightRatio);
    var width := bitmap.width as real * scale;
    var height := bitmap.height as real * scale;
    assert bitmap.width as real * widthRatio == viewWidth as real;
    assert bitmap.height as real * heightRatio == viewHeight as real;
    ViewFit(scale, width, height, (viewWidth as real - width) / 2.0, (viewHeight as real - height) / 2.0)
  }

  /** What the view shows: the placement of the scaled bitmap and the three overlay rectangles. */
  datatype Display = Display(
    hasScaledBitmap: bool,
    bitmapScale: real,
    bitmapLeft: real,
    bitmapTop: real,
    scaledBitmapWidth: real,
    scaledBitmapHeight: real,
    upperCropRect: RectF,
    gapRect: RectF,
    lowerCropRect: RectF)

  /** The display for a contain fit and source regions: each region mapped through the fit. */
  function Overlay(f: ViewFit, a: Areas): Display
  {
    Display(true, f.scale, f.left, f.top, f.width, f.height,
            Project(a.upper, f.scale, f.left, f.top),
            Project(a.gap, f.scale, f.left, f.top),
            Project(a.lower, f.scale, f.left, f.top))
  }

  /** The display after `calculateScaledBitmap` runs for a bitmap, a view size and a gap. */
  function Preview(bitmap: Bitmap, viewWidth: Pos, viewHeight: Pos, gap: int): (d: Display)
    requires GapModelled(gap)
    ensures d.hasScaledBitmap && d.bitmapScale > 0.0
    ensures ImageRect(d) == Project(IntBox(0, 0, bitmap.width, bitmap.height), d.bitmapScale, d.bitmapLeft, d.bitmapTop)
  {
    FittedImage(bitmap, viewWidth, viewHeight, CropAreas(bitmap, gap));
    Overlay(FitToView(bitmap, viewWidth, viewHeight), CropAreas(bitmap, gap))
  }

  /** Whatever the regions, the image of an overlay through the contain fit is the whole source, mapped. */
  lemma FittedImage(bitmap: Bitmap, viewWidth: Pos, viewHeight: Pos, a: Areas)
    ensures var d := Overlay(FitToView(bitmap, viewWidth, viewHeight), a);
      && d.hasScaledBitmap && d.bitmapScale > 0.0
      && ImageRect(d) == Project(IntBox(0, 0, bitmap.width, bitmap.height), d.bitmapScale, d.bitmapLeft, d.bitmapTop)
  {
    ImageIsProjectedSource(IntBox(0, 0, bitmap.width, bitmap.height), FitToView(bitmap, viewWidth, viewHeight), a);
  }

  /**
   * The scaled copy `Bitmap.createBitmap(bitmap, 0, 0, w, h, matrix, true)`
   * is `Math.round` of the scaled sides in size, and throws
   * IllegalArgumentException when either rounds to 0.
   */
  predicate ScaledCopyFails(f: ViewFit)
  {
    Round(f.width) <= 0 || Round(f.height) <= 0
  }

  /** The copy fails exactly when a scaled side is below half a pixel. */
  lemma ScaledCopyFailsBelowHalf(f: ViewFit)
    requires f.width > 0.0 && f.height > 0.0
    ensures ScaledCopyFails(f) <==> f.width < 0.5 || f.height < 0.5
  {
  }

  /**
   * A 4000x1 bitmap in a 1000x600 view is scaled by 1/4: its scaled height of
   * a quarter pixel rounds to 0 and the copy throws.
   */
  lemma ThinBitmapCopyFails()
    ensures FitToView(Bitmap(4000, 1), 1000, 600).height == 0.25
    ensures ScaledCopyFails(FitToView(Bitmap(4000, 1), 1000, 600))
  {
  }

  /** The display with the placement of `f` written and everything else kept. */
  function Placed(d: Display, f: ViewFit): Display
  {
    d.(bitmapScale := f.scale, bitmapLeft := f.left, bitmapTop := f.top,
       scaledBitmapWidth := f.width, scaledBitmapHeight := f.height)
  }

  /**
   * Regions stacked as upper, gap, lower, each well-formed and inside the
   * source, with the lower region within the upper region's columns.
   */
  predicate Stacked(a: Areas, source: IntBox)
  {
    && Ordered(a.upper) && Ordered(a.gap) && Ordered(a.lower)
    && BoxWithin(a.upper, source) && BoxWithin(a.gap, source) && BoxWithin(a.lower, source)
    && a.upper.bottom == a.gap.top && a.gap.bottom == a.lower.top
    && a.upper.left <= a.lower.left && a.lower.right <= a.upper.right
  }

  /** The scaled image as a rectangle in view coordinates. */
  function ImageRect(d: Display): RectF
  {
    RectF(d.bitmapLeft, d.bitmapTop, d.bitmapLeft + d.scaledBitmapWidth, d.bitmapTop + d.scaledBitmapHeight)
  }

  /**
   * An overlay stacked as upper box, gap box, lower box, each well-formed, the
   * lower box within the upper box's columns, all three drawn on the scaled
   * image, which itself lies inside the view.
   */
  predicate OverlayOnImage(d: Display, viewWidth: real, viewHeight: real)
  {
    && RectOrdered(d.upperCropRect) && RectOrdered(d.gapRect) && RectOrdered(d.lowerCropRect)
    && d.upperCropRect.bottom == d.gapRect.top && d.gapRect.bottom == d.lowerCropRect.top
    && d.upperCropRect.left <= d.lowerCropRect.left && d.lowerCropRect.right <= d.upperCropRect.right
    && RectWithin(d.upperCropRect, ImageRect(d)) && RectWithin(d.gapRect, ImageRect(d))
    && RectWithin(d.lowerCropRect, ImageRect(d))
    && RectWithin(ImageRect(d), RectF(0.0, 0.0, viewWidth, viewHeight))
  }

  /** For a non-negative gap the regions of `calculateCropAreas` are stacked inside the source. */
  lemma {:induction false} CropAreasStacked(original: Bitmap, gap: int)
    requires gap >= 0
    ensures Stacked(CropAreas(original, gap), IntBox(0, 0, original.width, original.height))
  {
    AreasInsideSource(original, gap);
    SplitForNonNegativeGap(original, gap);
  }

  /**
   * `f` draws the source box, anchored at the origin, at a positive scale and
   * centred with non-negative margins in a view of the given size.
   */
  predicate PlacesSource(f: ViewFit, source: IntBox, viewWidth: real, viewHeight: real)
  {
    && source.left == 0 && source.top == 0
    && f.scale > 0.0
    && f.width == source.right as real * f.scale && f.height == source.bottom as real * f.scale
    && f.left >= 0.0 && f.top >= 0.0
    && f.left + f.width + f.left == viewWidth && f.top + f.height + f.top == viewHeight
  }

  /** The contain fit places the whole bitmap in the view. */
  lemma FitPlacesSource(bitmap: Bitmap, viewWidth: Pos, viewHeight: Pos)
    ensures PlacesSource(FitToView(bitmap, viewWidth, viewHeight), IntBox(0, 0, bitmap.width, bitmap.height),
                         viewWidth as real, viewHeight as real)
  {
  }

  /** Mapping stacked regions through a placement of the whole source gives a well-placed overlay. */
  lemma {:induction false} OverlayOfStacked(source: IntBox, f: ViewFit, viewWidth: real, viewHeight: real, a: Areas)
    requires Stacked(a, source) && PlacesSource(f, source, viewWidth, viewHeight)
    ensures OverlayOnImage(Overlay(f, a), viewWidth, viewHeight)
  {
    OverlayRectsStacked(source, f, a);
    OverlayRectsOnImage(source, f, viewWidth, viewHeight, a);
  }

  lemma OverlayRectsStacked(source: IntBox, f: ViewFit, a: Areas)
    requires Stacked(a, source) && f.scale > 0.0
    ensures var d := Overlay(f, a);
      && RectOrdered(d.upperCropRect) && RectOrdered(d.gapRect) && RectOrdered(d.lowerCropRect)
      && d.upperCropRect.bottom == d.gapRect.top && d.gapRect.bottom == d.lowerCropRect.top
      && d.upperCropRect.left <= d.lowerCropRect.left && d.lowerCropRect.right <= d.upperCropRect.right
  {
    ProjectOrdered(a.upper, f.scale, f.left, f.top);
    ProjectOrdered(a.gap, f.scale, f.left, f.top);
    ProjectOrdered(a.lower, f.scale, f.left, f.top);
    ProjectColumns(a.lower, a.upper, f.scale, f.left, f.top);
    ProjectAdjacent(a.upper, a.gap, f.scale, f.left, f.top);
    ProjectAdjacent(a.gap, a.lower, f.scale, f.left, f.top);
  }

  lemma OverlayRectsOnImage(source: IntBox, f: ViewFit, viewWidth: real, viewHeight: real, a: Areas)
    requires Stacked(a, source) && PlacesSource(f, source, viewWidth, viewHeight)
    ensures var d := Overlay(f, a);
      && RectWithin(d.upperCropRect, ImageRect(d)) && RectWithin(d.gapRect, ImageRect(d))
      && RectWithin(d.lowerCropRect, ImageRect(d))
      && RectWithin(ImageRect(d), RectF(0.0, 0.0, viewWidth, viewHeight))
  {
    var d := Overlay(f, a);
    ImageIsProjectedSource(source, f, a);
    ProjectWithin(a.upper, source, f.scale, f.left, f.top);
    ProjectWithin(a.gap, source, f.scale, f.left, f.top);
    ProjectWithin(a.lower, source, f.scale, f.left, f.top);
  }

  lemma ImageIsProjectedSource(source: IntBox, f: ViewFit, a: Areas)
    requires source.left == 0 && source.top == 0
    requires f.width == source.right as real * f.scale && f.height == source.bottom as real * f.scale
    ensures ImageRect(Overlay(f, a)) == Project(source, f.scale, f.left, f.top)
  {
    ProjectOrigin(source, f.scale, f.left, f.top);
  }

  /** A box within another's columns stays within them after projection. */
  lemma ProjectColumns(inner: IntBox, outer: IntBox, scale: real, left: real, top: real)
    requires scale > 0.0 && outer.left <= inner.left && inner.right <= outer.right
    ensures Project(outer, scale, left, top).left <= Project(inner, scale, left, top).left
    ensures Project(inner, scale, left, top).right <= Project(outer, scale, left, top).right
  {
    PlaceMonotone(outer.left, inner.left, scale, left);
    PlaceMonotone(inner.right, outer.right, scale, left);
  }

  /** Boxes sharing a row boundary keep sharing it after projection. */
  lemma ProjectAdjacent(above: IntBox, below: IntBox, scale: real, left: real, top: real)
    requires above.bottom == below.top
    ensures Project(above, scale, left, top).bottom == Project(below, scale, left, top).top
  {
  }

  /** A box at the origin projects to the rectangle at the offset with the scaled size. */
  lemma ProjectOrigin(b: IntBox, scale: real, left: real, top: real)
    requires b.left == 0 && b.top == 0
    ensures Project(b, scale, left, top) == RectF(left, top, left + b.right as real * scale, top + b.bottom as real * scale)
  {
  }

  /** For a non-negative gap the preview's overlay is well placed on the image and in the view. */
  lemma {:induction false} PreviewOverlayOnImage(bitmap: Bitmap, viewWidth: Pos, viewHeight: Pos, gap: int)
    requires gap >= 0
    ensures OverlayOnImage(Preview(bitmap, viewWidth, viewHeight, gap), viewWidth as real, viewHeight as real)
  {
    CropAreasStacked(bitmap, gap);
    FitPlacesSource(bitmap, viewWidth, viewHeight);
    OverlayOfStacked(IntBox(0, 0, bitmap.width, bitmap.height), FitToView(bitmap, viewWidth, viewHeight),
                     viewWidth as real, viewHeight as real, CropAreas(bitmap, gap));
  }


  /**
   * The height rule of `onMeasure`: with a bitmap and a positive content
   * width, the measured width is the spec's size and the content height is the
   * bitmap's height scaled to the content width, truncated, but at least 200.
   * Otherwise the default measurement of the base view stands (`None`).
   */
  function MeasuredDimension(bitmap: Option<Bitmap>, specWidth: int,
                             paddingLeft: int, paddingRight: int,
                             paddingTop: int, paddingBottom: int): (r: Option<(int, int)>)
    ensures r.Some? <==> (bitmap.Some? && specWidth - paddingLeft - paddingRight > 0)
    ensures r.Some? ==> r.value.0 == specWidth
    ensures r.Some? ==>
      var w := specWidth - paddingLeft - paddingRight;
      var h := r.value.1 - paddingTop - paddingBottom;
      var b := bitmap.value;
      && h >= 200
      && (h > 200 ==> h * b.width <= b.height * w < (h + 1) * b.width)
      && (h == 200 ==> b.height * w < 201 * b.width)
  {
    match bitmap
    case None => None
    case Some(b) =>
      var width := specWidth - paddingLeft - paddingRight;
      if width > 0 then
        var scaledHeight := ScaledHeight(b, width);
        var finalHeight := Max(scaledHeight, 200);
        if scaledHeight <= 200 then
          IntMulMono(scaledHeight + 1, 201, b.width);
          Some((width + paddingLeft + paddingRight, finalHeight + paddingTop + paddingBottom))
        else
          Some((width + paddingLeft + paddingRight, finalHeight + paddingTop + paddingBottom))
      else
        None
  }

  /**
   * `scaledHeight`: the bitmap's height scaled by `width / bitmap.width`,
   * truncated, that is the whole rows of the height at that width.
   */
  function ScaledHeight(b: Bitmap, width: int): (q: int)
    requires width > 0
    ensures q * b.width <= b.height * width < (q + 1) * b.width
  {
    ScaledHeightBounds(b.width, b.height, width);
    ToInt(b.height as real * (width as real / b.width as real))
  }

  lemma ScaledHeightBounds(bw: int, bh: int, width: int)
    requires bw > 0 && bh > 0 && width > 0
    ensures var q := ToInt(bh as real * (width as real / bw as real));
      q * bw <= bh * width < (q + 1) * bw
  {
    var x := bh as real * (width as real / bw as real);
    var q := ToInt(x);
    assert x * bw as real == (bh * width) as real;
    TruncatedTimes(x, q, bw);
  }

  lemma IntMulMono(a: int, b: int, c: int)
    requires a <= b && c >= 0
    ensures a * c <= b * c
  {
  }

  /**
   * The view: the bitmap and gap it was given, its size, and the fields
   * `calculateScaledBitmap` and `calculateCropAreas` overwrite.
   */
  class CropPreviewView {
    var originalBitmap: Option<Bitmap>
    /** Whether a scaled copy exists; its pixels and exact size play no part in the geometry. */
    var hasScaledBitmap: bool
    var gapPixels: int
    var viewWidth: int
    var viewHeight: int
    var bitmapScale: real
    var bitmapLeft: real
    var bitmapTop: real
    var scaledBitmapWidth: real
    var scaledBitmapHeight: real
    var upperCropRect: RectF
    var lowerCropRect: RectF
    var gapRect: RectF

    /**
     * The scale is always positive and the scaled image is never placed to the
     * left of or above the view (contain fits only ever replace the initial
     * placement at the origin).
     */
    ghost predicate Valid()
      reads this
    {
      && GapModelled(gapPixels)
      && bitmapScale > 0.0
      && bitmapLeft >= 0.0 && bitmapTop >= 0.0
      && scaledBitmapWidth >= 0.0 && scaledBitmapHeight >= 0.0
    }

    ghost function Shown(): Display
      reads this
    {
      Display(hasScaledBitmap, bitmapScale, bitmapLeft, bitmapTop,
              scaledBitmapWidth, scaledBitmapHeight, upperCropRect, gapRect, lowerCropRect)
    }

    constructor ()
      ensures Valid()
      ensures originalBitmap == None && gapPixels == 0 && viewWidth == 0 && viewHeight == 0
      ensures Shown() == Display(false, 1.0, 0.0, 0.0, 0.0, 0.0,
                                 RectF(0.0, 0.0, 0.0, 0.0), RectF(0.0, 0.0, 0.0, 0.0), RectF(0.0, 0.0, 0.0, 0.0))
    {
      originalBitmap := None;
      hasScaledBitmap := false;
      gapPixels := 0;
      viewWidth, viewHeight := 0, 0;
      bitmapScale := 1.0;
      bitmapLeft, bitmapTop := 0.0, 0.0;
      scaledBitmapWidth, scaledBitmapHeight := 0.0, 0.0;
      upperCropRect := RectF(0.0, 0.0, 0.0, 0.0);
      lowerCropRect := RectF(0.0, 0.0, 0.0, 0.0);
      gapRect := RectF(0.0, 0.0, 0.0, 0.0);
    }

    /**
     * `setBitmap`: store the bitmap and gap, then refit. `thrown` is the
     * IllegalArgumentException of the scaled copy, which escapes to the
     * caller after the bitmap, the gap and the placement have been stored.
     */
    method SetBitmap(bitmap: Option<Bitmap>, gap: int) returns (thrown: bool)
      requires Valid() && GapModelled(gap)
      modifies this
      ensures Valid()
      ensures originalBitmap == bitmap && gapPixels == gap
      ensures viewWidth == old(viewWidth) && viewHeight == old(viewHeight)
      ensures thrown <==> bitmap.Some? && viewWidth > 0 && viewHeight > 0
                          && ScaledCopyFails(FitToView(bitmap.value, viewWidth, viewHeight))
      ensures if bitmap.Some? && viewWidth > 0 && viewHeight > 0 then
                var f := FitToView(bitmap.value, viewWidth, viewHeight);
                if ScaledCopyFails(f) then Shown() == Placed(old(Shown()), f)
                else Shown() == Preview(bitmap.value, viewWidth, viewHeight, gap)
              else Shown() == old(Shown())
    {
      originalBitmap := bitmap;
      gapPixels := gap;
      thrown := CalculateScaledBitmap();
    }

    /** `onSizeChanged`: record the new size, then refit; `thrown` as for `setBitmap`. */
    method OnSizeChanged(w: int, h: int, oldw: int, oldh: int) returns (thrown: bool)
      requires Valid()
      modifies this
      ensures Valid()
      ensures viewWidth == w && viewHeight == h
      ensures originalBitmap == old(originalBitmap) && gapPixels == old(gapPixels)
      ensures thrown <==> originalBitmap.Some? && w > 0 && h > 0
                          && ScaledCopyFails(FitToView(originalBitmap.value, w, h))
      ensures if originalBitmap.Some? && w > 0 && h > 0 then
                var f := FitToView(originalBitmap.value, w, h);
                if ScaledCopyFails(f) then Shown() == Placed(old(Shown()), f)
                else Shown() == Preview(originalBitmap.value, w, h, gapPixels)
              else Shown() == old(Shown())
    {
      viewWidth := w;
      viewHeight := h;
      thrown := CalculateScaledBitmap();
    }

    /**
     * `calculateScaledBitmap`: with a bitmap and a non-empty view, contain-fit,
     * then make the scaled copy and recompute the overlay. The placement
     * fields are written before the copy is made, so when the copy throws
     * (`thrown`) they hold the new fit while the copy and the overlay are
     * those of before.
     */
    method CalculateScaledBitmap() returns (thrown: bool)
      requires Valid()
      modifies this
      ensures Valid()
      ensures originalBitmap == old(originalBitmap) && gapPixels == old(gapPixels)
      ensures viewWidth == old(viewWidth) && viewHeight == old(viewHeight)
      ensures thrown <==> originalBitmap.Some? && viewWidth > 0 && viewHeight > 0
                          && ScaledCopyFails(FitToView(originalBitmap.value, viewWidth, viewHeight))
      ensures if originalBitmap.Some? && viewWidth > 0 && viewHeight > 0 then
                var f := FitToView(originalBitmap.value, viewWidth, viewHeight);
                if ScaledCopyFails(f) then Shown() == Placed(old(Shown()), f)
                else Shown() == Preview(originalBitmap.value, viewWidth, viewHeight, gapPixels)
              else Shown() == old(Shown())
    {
      thrown := false;
      if originalBitmap.Some? && viewWidth > 0 && viewHeight > 0 {
        var fit := FitToView(originalBitmap.value, viewWidth, viewHeight);
        bitmapScale := fit.scale;
        scaledBitmapWidth := fit.width;
        scaledBitmapHeight := fit.height;
        bitmapLeft := fit.left;
        bitmapTop := fit.top;
        if ScaledCopyFails(fit) {
          thrown := true;
          return;
        }
        hasScaledBitmap := true;
        CalculateCropAreas();
      }
    }

    /** `calculateCropAreas`: map the source regions through the current placement. */
    method CalculateCropAreas()
      requires Valid()
      modifies this`upperCropRect, this`gapRect, this`lowerCropRect
      ensures Valid()
      ensures if originalBitmap.Some? && hasScaledBitmap then
                var a := CropAreas(originalBitmap.value, gapPixels);
                && upperCropRect == Project(a.upper, bitmapScale, bitmapLeft, bitmapTop)
                && gapRect == Project(a.gap, bitmapScale, bitmapLeft, bitmapTop)
                && lowerCropRect == Project(a.lower, bitmapScale, bitmapLeft, bitmapTop)
              else
                && upperCropRect == old(upperCropRect) && gapRect == old(gapRect)
                && lowerCropRect == old(lowerCropRect)
    {
      if originalBitmap.Some? && hasScaledBitmap {
        var a := CropAreas(originalBitmap.value, gapPixels);
        upperCropRect := Project(a.upper, bitmapScale, bitmapLeft, bitmapTop);
        gapRect := Project(a.gap, bitmapScale, bitmapLeft, bitmapTop);
        lowerCropRect := Project(a.lower, bitmapScale, bitmapLeft, bitmapTop);
      }
    }
  }
}
