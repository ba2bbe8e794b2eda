/**
  The coordinate maps of the rendering step, over exact reals:
  - rounding of a float to the nearest integer (Math.round, RectF.round);
  - the scale-and-translate render matrix and its mapRect, used by calculateBounds;
  - normalisation of a detected pixel box by the image size;
  - the remap of a normalised match box into the pixel space of the current bitmap.
 */
module Geometry {

  /** android.graphics.RectF: a rectangle with float coordinates, here exact reals. */
  datatype RectF = RectF(left: real, top: real, right: real, bottom: real) {
    function Width(): real { right - left }
    function Height(): real { bottom - top }
  }

  /** android.graphics.Rect: a rectangle with integer coordinates. */
  datatype Rect = Rect(left: int, top: int, right: int, bottom: int)

  /** The whole page (or the whole bitmap) in normalised coordinates. */
  const UnitRect := RectF(0.0, 0.0, 1.0, 1.0)

  /** Bounds that can be divided by: both extents are non-zero. */
  predicate NonDegenerate(b: RectF) {
    b.Width() != 0.0 && b.Height() != 0.0
  }

  function ToRectF(b: Rect): RectF {
    RectF(b.left as real, b.top as real, b.right as real, b.bottom as real)
  }

  // ---------------------------------------------------------------------------
  // Rounding
  // ---------------------------------------------------------------------------

  /** Math.round: the nearest integer, halves rounded up (towards positive infinity). */
  function Round(x: real): (r: int)
    ensures r as real - 0.5 <= x < r as real + 0.5
  {
    (x + 0.5).Floor
  }

  /** Rounding is exact on values that already are integers. */
  lemma RoundOfInteger(k: int)
    ensures Round(k as real) == k
  {
  }

  /** RectF.round: every coordinate rounded to its nearest integer. */
  function RoundRect(b: RectF): (r: Rect)
    ensures r.left as real - 0.5 <= b.left < r.left as real + 0.5
    ensures r.top as real - 0.5 <= b.top < r.top as real + 0.5
    ensures r.right as real - 0.5 <= b.right < r.right as real + 0.5
    ensures r.bottom as real - 0.5 <= b.bottom < r.bottom as real + 0.5
  {
    Rect(Round(b.left), Round(b.top), Round(b.right), Round(b.bottom))
  }

  lemma RoundRectOfIntegral(b: Rect)
    ensures RoundRect(ToRectF(b)) == b
  {
    RoundOfInteger(b.left);
    RoundOfInteger(b.top);
    RoundOfInteger(b.right);
    RoundOfInteger(b.bottom);
  }

  // ---------------------------------------------------------------------------
  // The render matrix
  // ---------------------------------------------------------------------------

  /**
    android.graphics.Matrix restricted to the transforms this component builds:
    x' = scaleX * x + transX, y' = scaleY * y + transY.
   */
  datatype Matrix = Matrix(scaleX: real, scaleY: real, transX: real, transY: real)

  /** Matrix.reset(): the identity. */
  const Identity := Matrix(1.0, 1.0, 0.0, 0.0)

  function MapX(m: Matrix, x: real): real { m.scaleX * x + m.transX }
  function MapY(m: Matrix, y: real): real { m.scaleY * y + m.transY }

  /** Matrix.postTranslate: the translation is applied after the transform already held. */
  function PostTranslate(m: Matrix, dx: real, dy: real): (r: Matrix)
    ensures forall x :: MapX(r, x) == MapX(m, x) + dx
    ensures forall y :: MapY(r, y) == MapY(m, y) + dy
  {
    Matrix(m.scaleX, m.scaleY, m.transX + dx, m.transY + dy)
  }

  /** Matrix.postScale: the scaling (about the origin) is applied after the transform already held. */
  function PostScale(m: Matrix, kx: real, ky: real): (r: Matrix)
    ensures forall x :: MapX(r, x) == kx * MapX(m, x)
    ensures forall y :: MapY(r, y) == ky * MapY(m, y)
  {
    Matrix(m.scaleX * kx, m.scaleY * ky, m.transX * kx, m.transY * ky)
  }

  function Min(a: real, b: real): real { if a <= b then a else b }
  function Max(a: real, b: real): real { if a <= b then b else a }

  /**
    Matrix.mapRect: the bounding rectangle of the mapped corners. For a scale-and-translate
    matrix the corners map to corners, so each side is the smaller or the larger image of
    the two opposite sides.
   */
  function MapRect(m: Matrix, b: RectF): (r: RectF)
    ensures r.left <= r.right && r.top <= r.bottom
    ensures (r.left, r.right) == (MapX(m, b.left), MapX(m, b.right)) || (r.left, r.right) == (MapX(m, b.right), MapX(m, b.left))
    ensures (r.top, r.bottom) == (MapY(m, b.top), MapY(m, b.bottom)) || (r.top, r.bottom) == (MapY(m, b.bottom), MapY(m, b.top))
  {
    var x0, x1 := MapX(m, b.left), MapX(m, b.right);
    var y0, y1 := MapY(m, b.top), MapY(m, b.bottom);
    RectF(Min(x0, x1), Min(y0, y1), Max(x0, x1), Max(y0, y1))
  }

  /**
    The matrix calculateBounds builds for a width x height tile showing the page slice
    `slice`: reset, then translate by (-left * width, -top * height), then scale by
    (1 / slice width, 1 / slice height).
   */
  function RenderMatrix(width: int, height: int, slice: RectF): Matrix
    requires NonDegenerate(slice)
  {
    PostScale(PostTranslate(Identity, -slice.left * width as real, -slice.top * height as real),
              1.0 / slice.Width(), 1.0 / slice.Height())
  }

  /** The pixel rectangle (0, 0, width, height) mapped by the render matrix. */
  function RenderBounds(width: int, height: int, slice: RectF): RectF
    requires NonDegenerate(slice)
  {
    MapRect(RenderMatrix(width, height, slice), RectF(0.0, 0.0, width as real, height as real))
  }

  /** The render matrix translates first and scales second. */
  lemma RenderMatrixTranslatesThenScales(width: int, height: int, slice: RectF, x: real, y: real)
    requires NonDegenerate(slice)
    ensures MapX(RenderMatrix(width, height, slice), x) == (x - slice.left * width as real) / slice.Width()
    ensures MapY(RenderMatrix(width, height, slice), y) == (y - slice.top * height as real) / slice.Height()
  {
    var t := PostTranslate(Identity, -slice.left * width as real, -slice.top * height as real);
    assert MapX(t, x) == x - slice.left * width as real;
    assert MapY(t, y) == y - slice.top * height as real;
  }

  /**
    For a well-ordered slice (right > left, bottom > top) calculateBounds maps (0, 0, w, h) to
    (-l*w/(r-l), -t*h/(b-t), (1-l)*w/(r-l), (1-t)*h/(b-t)).
   */
  lemma RenderBoundsClosedForm(width: int, height: int, slice: RectF)
    requires width >= 0 && height >= 0
    requires slice.right > slice.left && slice.bottom > slice.top
    ensures RenderBounds(width, height, slice) ==
      RectF(-slice.left * width as real / slice.Width(),
            -slice.top * height as real / slice.Height(),
            (1.0 - slice.left) * width as real / slice.Width(),
            (1.0 - slice.top) * height as real / slice.Height())
  {
    var w, h := width as real, height as real;
    var m := RenderMatrix(width, height, slice);
    RenderMatrixTranslatesThenScales(width, height, slice, 0.0, 0.0);
    RenderMatrixTranslatesThenScales(width, height, slice, w, h);
    assert MapX(m, 0.0) == -slice.left * w / slice.Width();
    assert MapX(m, w) == (1.0 - slice.left) * w / slice.Width() by {
      assert w - slice.left * w == (1.0 - slice.left) * w;
    }
    assert MapY(m, 0.0) == -slice.top * h / slice.Height();
    assert MapY(m, h) == (1.0 - slice.top) * h / slice.Height() by {
      assert h - slice.top * h == (1.0 - slice.top) * h;
    }
  }

  /** The whole page maps the tile onto itself: (0, 0, w, h), also after rounding. */
  lemma WholePageRenderBounds(width: int, height: int)
    requires width >= 0 && height >= 0
    ensures RenderBounds(width, height, UnitRect) == RectF(0.0, 0.0, width as real, height as real)
    ensures RoundRect(RenderBounds(width, height, UnitRect)) == Rect(0, 0, width, height)
  {
    RenderBoundsClosedForm(width, height, UnitRect);
    RoundRectOfIntegral(Rect(0, 0, width, height));
  }

  /** The centre quarter of the page at 100 x 100: scale 2 after a shift by 25. */
  lemma CentreSliceRenderBounds()
    ensures RenderBounds(100, 100, RectF(0.25, 0.25, 0.75, 0.75)) == RectF(-50.0, -50.0, 150.0, 150.0)
  {
    RenderBoundsClosedForm(100, 100, RectF(0.25, 0.25, 0.75, 0.75));
  }

  // ---------------------------------------------------------------------------
  // Match boxes
  // ---------------------------------------------------------------------------

  /**
    Normalisation of a detected element box: every coordinate divided by the image width
    (horizontal ones) or height (vertical ones).
   */
  function Normalize(box: Rect, imageWidth: int, imageHeight: int): (r: RectF)
    requires imageWidth > 0 && imageHeight > 0
    ensures r.left * imageWidth as real == box.left as real
    ensures r.right * imageWidth as real == box.right as real
    ensures r.top * imageHeight as real == box.top as real
    ensures r.bottom * imageHeight as real == box.bottom as real
  {
    RectF(box.left as real / imageWidth as real, box.top as real / imageHeight as real,
          box.right as real / imageWidth as real, box.bottom as real / imageHeight as real)
  }

  /** One coordinate of the remap: the offset from the slice's start, as a fraction of the slice, times the bitmap size. */
  function Along(x: real, start: real, extent: real, size: real): real
    requires extent != 0.0
  {
    (x - start) / extent * size
  }

  /**
    The rectangle highlightBitmap draws: the normalised match box expressed relative to the
    page slice `bounds` the bitmap shows, scaled to the bitmap's width and height.
   */
  function Remap(box: RectF, bounds: RectF, bitmapWidth: int, bitmapHeight: int): (r: RectF)
    requires NonDegenerate(bounds)
    ensures r.left * bounds.Width() == (box.left - bounds.left) * bitmapWidth as real
    ensures r.right * bounds.Width() == (box.right - bounds.left) * bitmapWidth as real
    ensures r.top * bounds.Height() == (box.top - bounds.top) * bitmapHeight as real
    ensures r.bottom * bounds.Height() == (box.bottom - bounds.top) * bitmapHeight as real
  {
    var w, h := bitmapWidth as real, bitmapHeight as real;
    RectF(Along(box.left, bounds.left, bounds.Width(), w), Along(box.top, bounds.top, bounds.Height(), h),
          Along(box.right, bounds.left, bounds.Width(), w), Along(box.bottom, bounds.top, bounds.Height(), h))
  }

  /** A box normalised on an image and remapped onto a whole-page bitmap of the same size is the box again. */
  lemma NormalizeRemapRoundTrip(box: Rect, width: int, height: int)
    requires width > 0 && height > 0
    ensures Remap(Normalize(box, width, height), UnitRect, width, height) == ToRectF(box)
  {
  }

  /** A match box that is exactly the slice shown fills the whole bitmap. */
  lemma RemapOfBoundsFillsBitmap(bounds: RectF, width: int, height: int)
    requires NonDegenerate(bounds)
    ensures Remap(bounds, bounds, width, height) == RectF(0.0, 0.0, width as real, height as real)
  {
  }

  /**
    The highlight for a normalised page position lands where the page content at that position
    is rasterised: calculateBounds places the full page at origin (RenderBounds.left, .top) with
    extent (RenderBounds width, height) in the bitmap, and Remap agrees with that placement.
   */
  lemma RemapAgreesWithRenderBounds(box: RectF, slice: RectF, width: int, height: int)
    requires width >= 0 && height >= 0
    requires slice.right > slice.left && slice.bottom > slice.top
    ensures var rb, r := RenderBounds(width, height, slice), Remap(box, slice, width, height);
      && r.left == rb.left + box.left * rb.Width()
      && r.right == rb.left + box.right * rb.Width()
      && r.top == rb.top + box.top * rb.Height()
      && r.bottom == rb.top + box.bottom * rb.Height()
  {
    HorizontalPlacement(box.left, slice, width, height);
    HorizontalPlacement(box.right, slice, width, height);
    VerticalPlacement(box.top, slice, width, height);
    VerticalPlacement(box.bottom, slice, width, height);
  }

  /** One axis of RemapAgreesWithRenderBounds: a horizontal page position x lands at renderBounds.left + x * its width. */
  lemma HorizontalPlacement(x: real, slice: RectF, width: int, height: int)
    requires width >= 0 && height >= 0
    requires slice.right > slice.left && slice.bottom > slice.top
    ensures Along(x, slice.left, slice.Width(), width as real)
         == RenderBounds(width, height, slice).left + x * RenderBounds(width, height, slice).Width()
  {
  }

  /** The vertical axis of RemapAgreesWithRenderBounds. */
  lemma VerticalPlacement(y: real, slice: RectF, width: int, height: int)
    requires width >= 0 && height >= 0
    requires slice.right > slice.left && slice.bottom > slice.top
    ensures Along(y, slice.top, slice.Height(), height as real)
         == RenderBounds(width, height, slice).top + y * RenderBounds(width, height, slice).Height()
  {
  }
}
