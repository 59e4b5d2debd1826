/**
 * The focus-driven pixelation of the portrait GIF: the distance from the
 * container's vertical centre to the viewport's, the clamped linear map from
 * that distance to a block size in [1, 100], the centre crop that makes the
 * image cover its destination, and the downscale buffer whose blocks are
 * upscaled without smoothing.
 *
 * Arithmetic is over `real`, not IEEE doubles; the `Infinity` the source
 * returns for a missing container is the `Infinite` distance. Canvas drawing
 * is modelled by what the visible canvas ends up showing (`Picture`).
 */
module NotableProjectsPixelation {
  import opened Wrappers
  import opened RealArith

  const DisplayWidth: nat := 270
  const DisplayHeight: nat := 480
  const FocusZonePx: real := 100.0
  const MaxPixelSize: real := 100.0

  /** The vertical extent of the container's bounding client rectangle. */
  datatype Box = Box(top: real, height: real)

  /** A distance in pixels, or the `Infinity` of a missing container. */
  datatype Distance = Finite(value: real) | Infinite

  /** `a` is no farther than `b`, `Infinite` being farther than every finite distance. */
  predicate NoFarther(a: Distance, b: Distance) {
    b.Infinite? || (a.Finite? && a.value <= b.value)
  }

  /**
   * `getDistanceFromCenter`: how far the container's vertical centre is from
   * the viewport's; infinite when there is no container.
   */
  function DistanceFromCenter(container: Option<Box>, innerHeight: real): (d: Distance)
    ensures d.Infinite? <==> container.None?
    ensures d.Finite? ==> d.value >= 0.0
    ensures d.Finite? ==>
              (d.value == 0.0 <==> 2.0 * container.value.top + container.value.height == innerHeight)
  {
    match container
    case None => Infinite
    case Some(rect) =>
      var elementCenter := rect.top + rect.height / 2.0;
      var screenCenter := innerHeight / 2.0;
      Finite(Abs(elementCenter - screenCenter))
  }

  /**
   * The width of the ramp, `maxDistance - FOCUS_ZONE_PX` with `maxDistance =
   * max(innerHeight, FOCUS_ZONE_PX + 1)`: never below one pixel, so the
   * division in the block-size map is always defined.
   */
  function Normaliser(innerHeight: real): (k: real)
    ensures k >= 1.0
    ensures k >= innerHeight - FocusZonePx
  {
    Max(innerHeight, FocusZonePx + 1.0) - FocusZonePx
  }

  /** The distance at which the block size reaches its maximum. */
  function RampEnd(innerHeight: real): real {
    FocusZonePx + Normaliser(innerHeight)
  }

  /**
   * The block size `updatePixelation` computes: 1 (full resolution) inside
   * the focus zone, then rising linearly with the distance beyond it until
   * the ramp ends at `max(innerHeight, 101)`, where it stays at 100.
   */
  function PixelSize(distance: Distance, innerHeight: real): (p: real)
    ensures 1.0 <= p <= MaxPixelSize
    ensures distance.Finite? && distance.value <= FocusZonePx ==> p == 1.0
    ensures distance.Finite? && distance.value >= RampEnd(innerHeight) ==> p == MaxPixelSize
    ensures distance.Infinite? ==> p == MaxPixelSize
  {
    match distance
    case Infinite =>
      // (Infinity - 100) / k is Infinity, which Math.min clamps to 1
      1.0 + 1.0 * (MaxPixelSize - 1.0)
    case Finite(dist) =>
      if dist > FocusZonePx then
        var k := Normaliser(innerHeight);
        var normalized := Min((dist - FocusZonePx) / k, 1.0);
        DivisionBounds(dist - FocusZonePx, k);
        1.0 + normalized * (MaxPixelSize - 1.0)
      else
        1.0
  }

  /** The block size never decreases as the container moves away from the centre. */
  lemma PixelSizeMonotone(d1: Distance, d2: Distance, innerHeight: real)
    requires NoFarther(d1, d2)
    ensures PixelSize(d1, innerHeight) <= PixelSize(d2, innerHeight)
  {
    if d1.Finite? && d2.Finite? && d1.value > FocusZonePx {
      DivisionMonotone(d1.value - FocusZonePx, d2.value - FocusZonePx, Normaliser(innerHeight));
    }
  }

  /** Inside the ramp the block size strictly grows with the distance. */
  lemma PixelSizeStrictlyIncreasing(d1: real, d2: real, innerHeight: real)
    requires FocusZonePx <= d1 < d2 <= RampEnd(innerHeight)
    ensures PixelSize(Finite(d1), innerHeight) < PixelSize(Finite(d2), innerHeight)
  {
    var k := Normaliser(innerHeight);
    DivisionBounds(d2 - FocusZonePx, k);
    assert (d2 - FocusZonePx) / k - (d1 - FocusZonePx) / k == (d2 - d1) / k;
    DivisionBounds(d2 - d1, k);
    DivisionBounds(d1 - FocusZonePx, k);
  }

  /**
   * The block size is 1 exactly inside the focus zone: every distance beyond
   * 100 pixels, and a missing container, is drawn pixelated.
   */
  lemma FullResolutionIffInFocus(distance: Distance, innerHeight: real)
    ensures PixelSize(distance, innerHeight) <= 1.0 <==>
            distance.Finite? && distance.value <= FocusZonePx
  {
    if distance.Finite? && distance.value > FocusZonePx {
      DivisionBounds(distance.value - FocusZonePx, Normaliser(innerHeight));
    }
  }

  /**
   * `c = ceil(D / p)` cells of side p cover D pixels and one fewer do not;
   * for p >= 1 they are no more than D.
   */
  lemma CeilingCells(dim: real, p: real, c: int)
    requires dim >= 1.0 && p >= 1.0
    requires (c - 1) as real < dim / p <= c as real
    ensures c as real * p >= dim
    ensures (c - 1) as real * p < dim
    ensures dim / p <= dim
  {
    CellsBelow(dim, p, c);
    var x := dim / p;
    assert x * p == dim;
    ScaleAtMost(x, c as real, p);
    ScaleAtMost(1.0, p, x);
  }

  /** One cell fewer than `ceil(D / p)` falls short of D. */
  lemma CellsBelow(dim: real, p: real, c: int)
    requires p >= 1.0 && (c - 1) as real < dim / p
    ensures (c - 1) as real * p < dim
  {
    var x := dim / p;
    assert x * p == dim;
    ScaleLess((c - 1) as real, x, p);
  }

  /** `Math.ceil`. */
  function Ceil(x: real): (n: int)
    ensures (n - 1) as real < x <= n as real
  {
    -((-x).Floor)
  }

  /**
   * The side of the downscale buffer, `max(1, ceil(D / pixelSize))`: at
   * least one cell and at most D, its cells of side `pixelSize` cover the D
   * pixels, and one cell fewer would not.
   */
  function ScaledSize(dimension: nat, pixelSize: real): (n: int)
    requires dimension >= 1 && pixelSize >= 1.0
    ensures 1 <= n <= dimension
    ensures n as real * pixelSize >= dimension as real
    ensures (n - 1) as real * pixelSize < dimension as real
  {
    var c := Ceil(dimension as real / pixelSize);
    CeilingCells(dimension as real, pixelSize, c);
    if c >= 1 then c else 1
  }

  /** The part `(sx, sy, sWidth, sHeight)` of the source image that is drawn. */
  datatype Crop = Crop(sx: real, sy: real, sWidth: real, sHeight: real)

  /**
   * `drawImageCover`: the largest centred part of a `srcW` x `srcH` image
   * with the destination's aspect ratio; nothing is drawn when the image has
   * no width or no height. The crop keeps one full dimension of the source.
   */
  function DrawImageCover(srcW: nat, srcH: nat, destW: real, destH: real): (c: Option<Crop>)
    requires destW > 0.0 && destH > 0.0
    ensures c.None? <==> srcW == 0 || srcH == 0
    ensures c.Some? ==>
              var r := c.value;
              0.0 <= r.sx && 0.0 <= r.sy && 0.0 < r.sWidth && 0.0 < r.sHeight &&
              r.sx + r.sWidth <= srcW as real && r.sy + r.sHeight <= srcH as real &&
              2.0 * r.sx + r.sWidth == srcW as real && 2.0 * r.sy + r.sHeight == srcH as real &&
              r.sWidth * destH == r.sHeight * destW &&
              (r.sWidth == srcW as real || r.sHeight == srcH as real)
  {
    if srcW == 0 || srcH == 0 then
      None
    else
      var w, h := srcW as real, srcH as real;
      var srcAspect := w / h;
      var destAspect := destW / destH;
      assert srcAspect * h == w;
      assert destAspect * destH == destW;
      assert destAspect > 0.0 by { DivisionBounds(destW, destH); }
      if srcAspect > destAspect then
        var sWidth := h * destAspect;
        assert sWidth < w by {
          assert (srcAspect - destAspect) * h > 0.0;
        }
        assert sWidth * destH == h * destW;
        Some(Crop((w - sWidth) / 2.0, 0.0, sWidth, h))
      else
        var sHeight := w / destAspect;
        assert sHeight * destAspect == w;
        assert 0.0 < sHeight by { DivisionBounds(w, destAspect); }
        assert sHeight <= h by {
          ProductSign(destAspect - srcAspect, h);
          assert (h - sHeight) * destAspect == h * (destAspect - srcAspect);
          ProductSign(h - sHeight, destAspect);
        }
        assert w * destH == sHeight * destAspect * destH;
        Some(Crop(0.0, (h - sHeight) / 2.0, w, sHeight))
  }

  /** The `<img>` element: whether it has loaded, and its natural size. */
  datatype Image = Image(complete: bool, naturalWidth: nat, naturalHeight: nat)

  /** What the visible canvas shows. */
  datatype Picture =
    | Blank
      // the image, cover-cropped, drawn straight onto the 270 x 480 canvas with smoothing
    | Sharp(crop: Crop)
      // the image, cover-cropped into a cellsW x cellsH buffer, then upscaled without smoothing
    | Blocks(cellsW: int, cellsH: int, crop: Crop)

  /** The reusable temporary canvas: its size. */
  datatype TempCanvas = TempCanvas(width: int, height: int)

  /** The two canvases. */
  datatype Surface = Surface(picture: Picture, temp: Option<TempCanvas>)

  /** `pixelate` draws at all: the canvas and its context exist and the image has loaded with a width. */
  predicate CanDraw(img: Option<Image>, canvasReady: bool) {
    canvasReady && img.Some? && img.value.complete && img.value.naturalWidth > 0
  }

  /**
   * `pixelate` for block size `pixelSize`. `canvasReady` says the visible
   * canvas and its 2D context exist, `tempReady` that the temporary canvas
   * has a 2D context. Nothing happens without a canvas or a loaded image.
   * Otherwise the canvas is cleared; a block size of at most one draws the
   * cover crop of the image straight onto the 270 x 480 canvas and leaves the
   * temporary canvas alone; a larger one sizes the temporary canvas to
   * `max(1, ceil(D / pixelSize))` cells per side (creating it the first time)
   * and shows the cover crop of the image drawn into those cells. The canvas
   * stays blank only for an image without height, or, when blocks are
   * wanted, a temporary canvas without a context.
   */
  function Redraw(s: Surface, pixelSize: real, img: Option<Image>, canvasReady: bool, tempReady: bool): (t: Surface)
    requires pixelSize >= 1.0
    ensures !CanDraw(img, canvasReady) ==> t == s
    ensures CanDraw(img, canvasReady) && pixelSize <= 1.0 ==>
              t.temp == s.temp &&
              (t.picture.Sharp? || t.picture.Blank?) &&
              (t.picture.Blank? <==> img.value.naturalHeight == 0) &&
              (t.picture.Sharp? ==>
                 DrawImageCover(img.value.naturalWidth, img.value.naturalHeight,
                                DisplayWidth as real, DisplayHeight as real) == Some(t.picture.crop))
    ensures CanDraw(img, canvasReady) && pixelSize > 1.0 ==>
              t.temp == Some(TempCanvas(ScaledSize(DisplayWidth, pixelSize), ScaledSize(DisplayHeight, pixelSize))) &&
              1 <= t.temp.value.width <= DisplayWidth && 1 <= t.temp.value.height <= DisplayHeight &&
              (t.picture.Blocks? || t.picture.Blank?) &&
              (t.picture.Blank? <==> !tempReady || img.value.naturalHeight == 0) &&
              (t.picture.Blocks? ==>
                 t.picture.cellsW == t.temp.value.width && t.picture.cellsH == t.temp.value.height &&
                 DrawImageCover(img.value.naturalWidth, img.value.naturalHeight,
                                t.picture.cellsW as real, t.picture.cellsH as real) == Some(t.picture.crop))
  {
    if !canvasReady || img.None? || !img.value.complete || img.value.naturalWidth == 0 then
      s
    else
      var image := img.value;
      if pixelSize <= 1.0 then
        match DrawImageCover(image.naturalWidth, image.naturalHeight, DisplayWidth as real, DisplayHeight as real)
        case None => Surface(Blank, s.temp)
        case Some(crop) => Surface(Sharp(crop), s.temp)
      else
        var scaledW := ScaledSize(DisplayWidth, pixelSize);
        var scaledH := ScaledSize(DisplayHeight, pixelSize);
        var temp := Some(TempCanvas(scaledW, scaledH));
        if !tempReady then
          Surface(Blank, temp)
        else
          match DrawImageCover(image.naturalWidth, image.naturalHeight, scaledW as real, scaledH as real)
          case None => Surface(Blank, temp)
          case Some(crop) => Surface(Blocks(scaledW, scaledH, crop), temp)
  }

  /**
   * One redraw of `updatePixelation` for a loaded image with a width and a
   * height: inside the focus zone the image is drawn at full resolution,
   * leaving the temporary canvas as it was; outside it, and when the
   * container is missing, the temporary canvas is sized and, when it has a
   * context, the image is drawn in blocks.
   */
  lemma RedrawByFocus(s: Surface, container: Option<Box>, innerHeight: real, img: Image, tempReady: bool)
    requires img.complete && img.naturalWidth > 0 && img.naturalHeight > 0
    ensures var d := DistanceFromCenter(container, innerHeight);
            var t := Redraw(s, PixelSize(d, innerHeight), Some(img), true, tempReady);
            (d.Finite? && d.value <= FocusZonePx ==> t.picture.Sharp? && t.temp == s.temp) &&
            (!(d.Finite? && d.value <= FocusZonePx) ==> t.temp.Some? && (tempReady ==> t.picture.Blocks?))
  {
    var d := DistanceFromCenter(container, innerHeight);
    FullResolutionIffInFocus(d, innerHeight);
  }

  /** The component's canvases. */
  class PixelationCanvas {
    var picture: Picture           // what pixelCanvasRef shows
    var temp: Option<TempCanvas>   // tempCanvasRef

    function State(): Surface
      reads this
    {
      Surface(picture, temp)
    }

    /** A mounted, not yet drawn canvas; the temporary canvas does not exist yet. */
    constructor ()
      ensures State() == Surface(Blank, None)
    {
      picture := Blank;
      temp := None;
    }

    method Pixelate(pixelSize: real, img: Option<Image>, canvasReady: bool, tempReady: bool)
      requires pixelSize >= 1.0
      modifies this
      ensures State() == Redraw(old(State()), pixelSize, img, canvasReady, tempReady)
    {
      if !canvasReady || img.None? || !img.value.complete || img.value.naturalWidth == 0 {
        return;
      }
      var image := img.value;
      picture := Blank;
      if pixelSize <= 1.0 {
        var crop := DrawImageCover(image.naturalWidth, image.naturalHeight, DisplayWidth as real, DisplayHeight as real);
        if crop.Some? {
          picture := Sharp(crop.value);
        }
        return;
      }
      var scaledW := ScaledSize(DisplayWidth, pixelSize);
      var scaledH := ScaledSize(DisplayHeight, pixelSize);
      temp := Some(TempCanvas(scaledW, scaledH));
      if !tempReady {
        return;
      }
      var crop := DrawImageCover(image.naturalWidth, image.naturalHeight, scaledW as real, scaledH as real);
      if crop.Some? {
        picture := Blocks(scaledW, scaledH, crop.value);
      }
    }

    method UpdatePixelation(container: Option<Box>, innerHeight: real, img: Option<Image>, canvasReady: bool, tempReady: bool)
      modifies this
      ensures State() == Redraw(old(State()), PixelSize(DistanceFromCenter(container, innerHeight), innerHeight),
                                img, canvasReady, tempReady)
    {
      var distance := DistanceFromCenter(container, innerHeight);
      var pixelSize := PixelSize(distance, innerHeight);
      Pixelate(pixelSize, img, canvasReady, tempReady);
    }
  }
}
