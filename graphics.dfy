/**
 * The few pieces of the Android graphics API that the geometry relies on,
 * reduced to sizes and rectangles: a bitmap is its width and height (an
 * Android bitmap is never empty), and each bitmap factory call succeeds exactly
 * when its argument checks pass (otherwise Android throws
 * IllegalArgumentException, modelled as `Err`).
 */
module Graphics {

  /** A Kotlin nullable value. */
  datatype Option<+T> = None | Some(value: T)

  /** A strictly positive pixel count. */
  type Pos = n: int | n > 0 witness 1

  datatype Bitmap = Bitmap(width: Pos, height: Pos)

  /** The arguments `x, y, width, height` of `Bitmap.createBitmap(source, x, y, width, height)`. */
  datatype Crop = Crop(x: int, y: int, width: int, height: int)

  /** An integer rectangle given by its edges, in source-image pixels. */
  datatype IntBox = IntBox(left: int, top: int, right: int, bottom: int)

  /** `android.graphics.RectF`: a rectangle with float edges. */
  datatype RectF = RectF(left: real, top: real, right: real, bottom: real)

  datatype BitmapError = IllegalArgument

  datatype Result<+T> = Ok(value: T) | Err(error: BitmapError)

  /** The region check of `createBitmap(source, x, y, width, height)`. */
  predicate CropFits(source: Bitmap, c: Crop)
  {
    && 0 <= c.x && 0 <= c.y && 0 < c.width && 0 < c.height
    && c.x + c.width <= source.width && c.y + c.height <= source.height
  }

  /** `Bitmap.createBitmap(width, height, config)`: a fresh canvas. */
  function CreateBitmap(width: int, height: int): Result<Bitmap>
  {
    if width > 0 && height > 0 then Ok(Bitmap(width, height)) else Err(IllegalArgument)
  }

  /** `Bitmap.createScaledBitmap(source, width, height, filter)`: output has the requested size. */
  function CreateScaledBitmap(source: Bitmap, width: int, height: int): Result<Bitmap>
  {
    if width > 0 && height > 0 then Ok(Bitmap(width, height)) else Err(IllegalArgument)
  }

  /** `Bitmap.createBitmap(source, x, y, width, height)`: the sub-image at `c`. */
  function CreateBitmapRegion(source: Bitmap, c: Crop): Result<Bitmap>
  {
    if CropFits(source, c) then Ok(Bitmap(c.width, c.height)) else Err(IllegalArgument)
  }
}
