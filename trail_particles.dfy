/**
 * The trail rectangles of the cursor trail: how one is sized, coloured and
 * placed from the random draws it consumes, and the one-in/one-out queue
 * that keeps at most seven of them on the page.
 *
 * `Math.random()` is not modelled; every draw it would return is a parameter
 * in [0, 1).
 */
module TrailParticles {

  /** Capacity of the trail queue. */
  const MaxTrailRects: nat := 7

  /** The fixed colour palette, in the source's order. */
  const Palette: seq<string> :=
    ["#b0fb90", "#FF69B4", "#FFFFFF", "#0745AD", "#F8F9FA", "#020817", "#EBECF0"]

  /** A value `Math.random()` can return. */
  predicate IsUnit(r: real) {
    0.0 <= r < 1.0
  }

  /**
   * The six random draws one rectangle consumes, in the order they are drawn:
   * orientation, width, height, colour, then the x and y jitter.
   */
  datatype Draws = Draws(orientation: real, width: real, height: real,
                         color: real, offsetX: real, offsetY: real)
  {
    predicate Valid() {
      IsUnit(orientation) && IsUnit(width) && IsUnit(height) &&
      IsUnit(color) && IsUnit(offsetX) && IsUnit(offsetY)
    }
  }

  /**
   * One rectangle: the anchor point it was spawned for, and the size, colour
   * and absolute page position given to its element.
   */
  datatype TrailRect = TrailRect(x: real, y: real, width: int, height: int,
                                 color: string, left: real, top: real)

  /** `randomSize`: an integer drawn from [min, max]. */
  function RandomSize(min: int, max: int, r: real): (n: int)
    requires min <= max && IsUnit(r)
    ensures min <= n <= max
  {
    var span := (max - min + 1) as real;
    assert r * span < span;
    (r * span).Floor + min
  }

  /** Every size in [min, max] is produced by some draw. */
  lemma RandomSizeCovers(min: int, max: int, n: int)
    requires min <= n <= max
    ensures var r := (n - min) as real / (max - min + 1) as real;
            IsUnit(r) && RandomSize(min, max, r) == n
  {
    var span := (max - min + 1) as real;
    var r := (n - min) as real / span;
    assert r * span == (n - min) as real;
    assert r < 1.0 by {
      assert (n - min) as real < span;
    }
  }

  /** `randomColor`: one entry of the palette. */
  function RandomColor(r: real): (c: string)
    requires IsUnit(r)
    ensures c in Palette
  {
    var k := |Palette| as real;
    assert r * k < k;
    Palette[(r * k).Floor]
  }

  /** `randomOffset`: a jitter in [-range/2, range/2). */
  function RandomOffset(range: real, r: real): (o: real)
    requires range > 0.0 && IsUnit(r)
    ensures -range / 2.0 <= o < range / 2.0
  {
    assert r * range < range;
    (r - 0.5) * range
  }

  /** `randomBool`, as used for the orientation: true means a wide rectangle. */
  predicate IsHorizontal(d: Draws) {
    d.orientation > 0.5
  }

  /** The horizontal jitter range: wider for scroll-created rectangles. */
  function JitterX(isScrollCreated: bool): real {
    if isScrollCreated then 128.0 else 64.0
  }

  /**
   * `createTrailRect`: a rectangle for anchor (x, y), placed on the page at
   * scroll offset `scrollY`. Wide rectangles are 40-120 by 8-25 pixels, tall
   * ones the reverse; the colour comes from the palette; the centre lies
   * within half the jitter range of the anchor (shifted by the scroll offset
   * vertically).
   */
  function CreateTrailRect(x: real, y: real, isScrollCreated: bool, scrollY: real, d: Draws): (rect: TrailRect)
    requires d.Valid()
    ensures rect.x == x && rect.y == y
    ensures IsHorizontal(d) ==> 40 <= rect.width <= 120 && 8 <= rect.height <= 25
    ensures !IsHorizontal(d) ==> 8 <= rect.width <= 25 && 40 <= rect.height <= 120
    ensures rect.color in Palette
    ensures var cx := rect.left + rect.width as real / 2.0;
            var half := JitterX(isScrollCreated) / 2.0;
            x - half <= cx < x + half
    ensures var cy := rect.top + rect.height as real / 2.0;
            y + scrollY - 32.0 <= cy < y + scrollY + 32.0
  {
    var horizontal := IsHorizontal(d);
    var width := if horizontal then RandomSize(40, 120, d.width) else RandomSize(8, 25, d.width);
    var height := if horizontal then RandomSize(8, 25, d.height) else RandomSize(40, 120, d.height);
    var color := RandomColor(d.color);
    var offsetX := RandomOffset(JitterX(isScrollCreated), d.offsetX);
    var offsetY := RandomOffset(64.0, d.offsetY);
    TrailRect(x, y, width, height, color,
              x + offsetX - width as real / 2.0,
              y + scrollY + offsetY - height as real / 2.0)
  }

  /**
   * `addNewRect` on the queue: append the new rectangle, then drop the
   * oldest one if the queue is over capacity.
   */
  function OneInOneOut(queue: seq<TrailRect>, rect: TrailRect): (q: seq<TrailRect>)
    ensures |queue| <= MaxTrailRects ==> |q| <= MaxTrailRects
    ensures |q| == |queue| + 1 <==> |queue| < MaxTrailRects
    ensures |q| > 0 && q[|q| - 1] == rect
    ensures q[..|q| - 1] == if |queue| < MaxTrailRects then queue else queue[1..]
  {
    var pushed := queue + [rect];
    if |pushed| > MaxTrailRects then
      var kept := queue[1..];
      assert pushed[1..] == kept + [rect];
      assert (kept + [rect])[..|kept|] == kept;
      pushed[1..]
    else
      assert pushed[..|queue|] == queue;
      pushed
  }

  /** The last `n` elements of `s` (all of them when there are fewer). */
  function Recent<T>(s: seq<T>, n: nat): (r: seq<T>)
    ensures |r| == if |s| <= n then |s| else n
    ensures r == s[|s| - |r|..]
  {
    if |s| <= n then s else s[|s| - n..]
  }

  /** One spawn moves the window of the last seven spawns forward by one. */
  lemma OneInOneOutRecent(history: seq<TrailRect>, rect: TrailRect)
    ensures OneInOneOut(Recent(history, MaxTrailRects), rect) == Recent(history + [rect], MaxTrailRects)
  {
    var h := history + [rect];
    var window := Recent(history, MaxTrailRects);
    var n := |history|;
    if n >= MaxTrailRects {
      assert window == history[n - MaxTrailRects..];
      assert OneInOneOut(window, rect) == (window + [rect])[1..];
      assert (window + [rect])[1..] == history[n - MaxTrailRects + 1..] + [rect];
      assert h[|h| - MaxTrailRects..] == history[n - MaxTrailRects + 1..] + [rect];
    } else {
      assert window == history;
      assert OneInOneOut(window, rect) == h;
    }
  }

  /** A run of spawns, each through `OneInOneOut`, in order. */
  function SpawnAll(queue: seq<TrailRect>, rects: seq<TrailRect>): seq<TrailRect>
    decreases |rects|
  {
    if rects == [] then queue else SpawnAll(OneInOneOut(queue, rects[0]), rects[1..])
  }

  /** Two runs of spawns, one after the other, are one run. */
  lemma {:induction false} SpawnAllAppend(queue: seq<TrailRect>, a: seq<TrailRect>, b: seq<TrailRect>)
    ensures SpawnAll(queue, a + b) == SpawnAll(SpawnAll(queue, a), b)
    decreases |a|
  {
    if a == [] {
      assert a + b == b;
    } else {
      assert (a + b)[0] == a[0];
      assert (a + b)[1..] == a[1..] + b;
      SpawnAllAppend(OneInOneOut(queue, a[0]), a[1..], b);
    }
  }

  /**
   * FIFO eviction: after any run of spawns the queue holds exactly the last
   * seven rectangles spawned, oldest first.
   */
  lemma {:induction false} SpawnAllRecent(history: seq<TrailRect>, rects: seq<TrailRect>)
    ensures SpawnAll(Recent(history, MaxTrailRects), rects) == Recent(history + rects, MaxTrailRects)
    decreases |rects|
  {
    if rects != [] {
      var r, rest := rects[0], rects[1..];
      assert history + [r] + rest == history + rects;
      calc {
        SpawnAll(Recent(history, MaxTrailRects), rects);
        SpawnAll(OneInOneOut(Recent(history, MaxTrailRects), r), rest);
        { OneInOneOutRecent(history, r); }
        SpawnAll(Recent(history + [r], MaxTrailRects), rest);
        { SpawnAllRecent(history + [r], rest); }
        Recent(history + [r] + rest, MaxTrailRects);
      }
    }
  }

  /**
   * From an empty trail, n spawns leave min(n, 7) rectangles: every one of
   * them while fewer than seven were spawned, otherwise the last seven.
   */
  lemma SpawnFromEmpty(rects: seq<TrailRect>)
    ensures |rects| <= MaxTrailRects ==> SpawnAll([], rects) == rects
    ensures |rects| >= MaxTrailRects ==> SpawnAll([], rects) == rects[|rects| - MaxTrailRects..]
  {
    SpawnAllRecent([], rects);
    assert [] + rects == rects;
    var r := Recent(rects, MaxTrailRects);
    if |rects| <= MaxTrailRects {
      assert r == rects;
    } else {
      assert r == rects[|rects| - MaxTrailRects..];
    }
  }
}
