/**
 * The scroll-driven pixelated image: a pixelation level in [0, 1] from the
 * distance of the element's centre to the viewport's, and the 9:16 grid the
 * image is rendered at for that level, upscaled to fill its box.
 *
 * Arithmetic is over `real`. For the level the source's expression is given
 * twice: `LevelAsWritten`, which keeps the quotient the code computes
 * (including the NaN of 0 / 0), and `PixelationLevel`, the clamped level the
 * component state is modelled with.
 */
module PixelatedImage {
  import opened Wrappers
  import opened RealArith

  /** Within this many pixels of the centre the image is at full resolution. */
  const Buffer: real := 200.0

  const MinWidth: real := 9.0
  const MaxWidth: real := 1080.0
  const MinHeight: real := 16.0
  const MaxHeight: real := 1920.0
  const AspectRatio: real := 9.0 / 16.0

  /** The `useState` initial value: fully pixelated until the first scroll event. */
  const InitialPixelation: real := 1.0

  /** The vertical extent of the container's bounding client rectangle. */
  datatype Box = Box(top: real, height: real)

  /** How far the element's vertical centre is from the viewport's. */
  function DistanceFromCenter(rect: Box, windowHeight: real): (d: real)
    ensures d >= 0.0
    ensures d == 0.0 <==> 2.0 * rect.top + rect.height == windowHeight
  {
    Abs(rect.top + rect.height / 2.0 - windowHeight / 2.0)
  }

  /**
   * `maxDistance`: half the viewport plus half the element, the distance at
   * which the element's edge meets the viewport's edge. The element's centre
   * is at most that far from the viewport's exactly when the element still
   * overlaps or touches the viewport.
   */
  function MaxDistance(rect: Box, windowHeight: real): (m: real)
    ensures DistanceFromCenter(rect, windowHeight) <= m <==>
            rect.top <= windowHeight && rect.top + rect.height >= 0.0
  {
    windowHeight / 2.0 + rect.height / 2.0
  }

  /** A double that is a number, or NaN. */
  datatype Level = Number(value: real) | NaN

  /**
   * The level as `handleScroll` computes it. A zero denominator gives
   * Infinity, which `Math.min` clamps to 1, or NaN for 0 / 0; a negative
   * denominator gives a negative level for an element more than 200 pixels
   * from the centre, and 0 otherwise.
   */
  function LevelAsWritten(distance: real, maxDistance: real): (l: Level)
    requires distance >= 0.0
    ensures maxDistance > Buffer ==> l.Number? && 0.0 <= l.value <= 1.0
    ensures distance <= Buffer && maxDistance != Buffer ==> l == Number(0.0)
  {
    var effectiveDistance := Max(0.0, distance - Buffer);
    var denominator := maxDistance - Buffer;
    if denominator == 0.0 then
      if effectiveDistance > 0.0 then Number(1.0) else NaN
    else
      if denominator > 0.0 then
        DivisionBounds(effectiveDistance, denominator);
        Number(Min(effectiveDistance / denominator, 1.0))
      else
        Number(Min(effectiveDistance / denominator, 1.0))
  }

  /**
   * With a viewport of 200 pixels and an element 100 pixels high,
   * `maxDistance` is 150, below the buffer: an element 350 pixels from the
   * centre gets level -3, and one at the centre of a 300-pixel viewport gets
   * NaN.
   */
  lemma LevelAsWrittenLeavesRange()
    ensures var rect := Box(400.0, 100.0);
            DistanceFromCenter(rect, 200.0) == 350.0 && MaxDistance(rect, 200.0) == 150.0 &&
            LevelAsWritten(350.0, 150.0) == Number(-3.0)
    ensures var rect := Box(100.0, 100.0);
            DistanceFromCenter(rect, 300.0) == 0.0 && MaxDistance(rect, 300.0) == 200.0 &&
            LevelAsWritten(0.0, 200.0) == NaN
  {
  }

  /**
   * The pixelation level: 0 within the buffer, then rising linearly to 1 at
   * `maxDistance`; when `maxDistance` leaves no room beyond the buffer, every
   * element outside the buffer is at level 1. It agrees with the source's
   * expression wherever that lies in [0, 1].
   */
  function PixelationLevel(distance: real, maxDistance: real): (l: real)
    requires distance >= 0.0
    ensures 0.0 <= l <= 1.0
    ensures distance <= Buffer ==> l == 0.0
    ensures distance > Buffer && distance >= maxDistance ==> l == 1.0
    ensures maxDistance > Buffer ==> LevelAsWritten(distance, maxDistance) == Number(l)
    ensures var w := LevelAsWritten(distance, maxDistance);
            w.Number? && 0.0 <= w.value <= 1.0 ==> l == w.value
  {
    var effectiveDistance := Max(0.0, distance - Buffer);
    var denominator := maxDistance - Buffer;
    if effectiveDistance == 0.0 then
      0.0
    else if denominator <= 0.0 then
      DivisionByNegative(effectiveDistance, denominator);
      1.0
    else
      DivisionBounds(effectiveDistance, denominator);
      Min(effectiveDistance / denominator, 1.0)
  }

  /** The level never decreases as the element moves away from the centre. */
  lemma LevelMonotone(d1: real, d2: real, maxDistance: real)
    requires 0.0 <= d1 <= d2
    ensures PixelationLevel(d1, maxDistance) <= PixelationLevel(d2, maxDistance)
  {
    if d1 > Buffer && maxDistance > Buffer {
      DivisionMonotone(d1 - Buffer, d2 - Buffer, maxDistance - Buffer);
    }
  }

  /**
   * `handleScroll` applied to the `pixelation` state: unchanged without a
   * container, otherwise the level for the container's position.
   */
  function HandleScroll(pixelation: real, container: Option<Box>, windowHeight: real): (next: real)
    ensures container.None? ==> next == pixelation
    ensures container.Some? ==>
              next == PixelationLevel(DistanceFromCenter(container.value, windowHeight),
                                      MaxDistance(container.value, windowHeight))
    ensures container.Some? ==> 0.0 <= next <= 1.0
    ensures container.Some? && DistanceFromCenter(container.value, windowHeight) <= Buffer ==> next == 0.0
    ensures container.Some? && MaxDistance(container.value, windowHeight) > Buffer ==>
              LevelAsWritten(DistanceFromCenter(container.value, windowHeight),
                             MaxDistance(container.value, windowHeight)) == Number(next)
    ensures container.Some? ==>
              var rect := container.value;
              var outside := rect.top > windowHeight || rect.top + rect.height < 0.0;
              DistanceFromCenter(rect, windowHeight) > Buffer && outside ==> next == 1.0
  {
    match container
    case None => pixelation
    case Some(rect) =>
      PixelationLevel(DistanceFromCenter(rect, windowHeight), MaxDistance(rect, windowHeight))
  }

  /**
   * The mount: the state starts at `InitialPixelation` and the effect calls
   * `handleScroll` once before any scroll event: the initial level survives
   * only when there is no container; otherwise the first level is the one
   * for the container's position.
   */
  function Mount(container: Option<Box>, windowHeight: real): (p: real)
    ensures container.None? ==> p == InitialPixelation
    ensures container.Some? ==>
              p == PixelationLevel(DistanceFromCenter(container.value, windowHeight),
                                   MaxDistance(container.value, windowHeight))
    ensures 0.0 <= p <= 1.0
    ensures container.Some? && DistanceFromCenter(container.value, windowHeight) <= Buffer ==> p == 0.0
    ensures container.Some? ==>
              var rect := container.value;
              var outside := rect.top > windowHeight || rect.top + rect.height < 0.0;
              DistanceFromCenter(rect, windowHeight) > Buffer && outside ==> p == 1.0
  {
    HandleScroll(InitialPixelation, container, windowHeight)
  }

  /** `currentWidth`: from 1080 at level 0 down to 9 at level 1. */
  function CurrentWidth(pixelation: real): (w: real)
    ensures 0.0 <= pixelation <= 1.0 ==> MinWidth <= w <= MaxWidth
    ensures pixelation == 0.0 ==> w == MaxWidth
    ensures pixelation == 1.0 ==> w == MinWidth
  {
    MinWidth + (MaxWidth - MinWidth) * (1.0 - pixelation)
  }

  /** `currentHeight`: from 1920 at level 0 down to 16 at level 1, always 16:9 to the width. */
  function CurrentHeight(pixelation: real): (h: real)
    ensures 0.0 <= pixelation <= 1.0 ==> MinHeight <= h <= MaxHeight
    ensures pixelation == 0.0 ==> h == MaxHeight
    ensures pixelation == 1.0 ==> h == MinHeight
    ensures 16.0 * CurrentWidth(pixelation) == 9.0 * h
  {
    MinHeight + (MaxHeight - MinHeight) * (1.0 - pixelation)
  }

  /** A higher level never gives a finer grid. */
  lemma GridCoarsens(p1: real, p2: real)
    requires p1 <= p2
    ensures CurrentWidth(p2) <= CurrentWidth(p1) && CurrentHeight(p2) <= CurrentHeight(p1)
  {
  }

  /** `displayWidth`: the box keeps the 9:16 ratio. */
  function DisplayWidth(displayHeight: real): (w: real)
    ensures 16.0 * w == 9.0 * displayHeight
  {
    displayHeight * AspectRatio
  }

  /**
   * The `scale(...)` transform applied to the grid: it maps the grid's width
   * onto the box's width, and enlarges for any box with a height.
   */
  function Scale(pixelation: real, displayHeight: real): (s: real)
    requires 0.0 <= pixelation <= 1.0
    ensures CurrentWidth(pixelation) * s == DisplayWidth(displayHeight)
    ensures displayHeight > 0.0 ==> s > 0.0
  {
    DivisionBounds(DisplayWidth(displayHeight), CurrentWidth(pixelation));
    DisplayWidth(displayHeight) / CurrentWidth(pixelation)
  }

  /**
   * The upscaled grid fills the box exactly, in both directions: the
   * transform computed from the widths also maps the grid's height onto the
   * box's height.
   */
  lemma ScaledGridFillsBox(pixelation: real, displayHeight: real)
    requires 0.0 <= pixelation <= 1.0
    ensures CurrentWidth(pixelation) * Scale(pixelation, displayHeight) == DisplayWidth(displayHeight)
    ensures CurrentHeight(pixelation) * Scale(pixelation, displayHeight) == displayHeight
  {
    var w, h := CurrentWidth(pixelation), CurrentHeight(pixelation);
    var dw := DisplayWidth(displayHeight);
    var s := dw / w;
    assert w * s == dw;
    assert h == 16.0 * w / 9.0;
    assert h * s == 16.0 * (w * s) / 9.0;
  }
}
