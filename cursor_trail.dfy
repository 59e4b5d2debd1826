/**
 * The cursor trail's event handlers: a movement accumulator and a scroll
 * accumulator, each spawning one rectangle when it reaches 64 pixels, a
 * first-touch spawn, and a reset when the pointer is reported outside the
 * viewport.
 *
 * The handlers are first given as functions on a `TrailState` value (the
 * specification), then as the methods of `TrailEngine`, whose fields are the
 * component's refs and which are proved to follow those functions.
 * `Math.sqrt` is not modelled: the distance of a move is a parameter `d` with
 * `IsDistance(d, from, to)`. `window.scrollY`, `innerWidth` and `innerHeight`
 * are parameters too.
 */
module CursorTrail {
  import opened Wrappers
  import opened TrailParticles
  import opened RealArith

  /** The spawn threshold, for pointer travel and for scroll travel alike. */
  const MinDistance: real := 64.0

  datatype Point = Point(x: real, y: real)

  /** `d` is the Euclidean distance from `a` to `b`. */
  predicate IsDistance(d: real, a: Point, b: Point) {
    d >= 0.0 && d * d == (b.x - a.x) * (b.x - a.x) + (b.y - a.y) * (b.y - a.y)
  }

  /** The component's refs. */
  datatype TrailState = TrailState(
    queue: seq<TrailRect>,          // trailRectsRef
    lastPosition: Option<Point>,    // lastPositionRef: null means untracked
    lastScroll: real,               // lastScrollRef
    totalDistance: real,            // totalDistanceRef
    scrollDistance: real,           // scrollDistanceRef
    currentMousePos: Option<Point>) // currentMousePosRef

  /**
   * What every handler keeps: the queue is within capacity, the movement
   * accumulator is below the threshold and zero while untracked, the scroll
   * accumulator is non-negative, and a tracked last position is the current
   * pointer position.
   */
  predicate Inv(s: TrailState) {
    |s.queue| <= MaxTrailRects &&
    0.0 <= s.totalDistance < MinDistance &&
    (s.lastPosition.None? ==> s.totalDistance == 0.0) &&
    0.0 <= s.scrollDistance &&
    (s.lastPosition.Some? ==> s.currentMousePos == s.lastPosition)
  }

  /** The state at mount: nothing spawned, nothing tracked. */
  function Mounted(scrollY: real): (s: TrailState)
    ensures Inv(s) && s.queue == [] && s.lastScroll == scrollY
    ensures s.totalDistance == 0.0 && s.scrollDistance == 0.0
    ensures s.lastPosition.None? && s.currentMousePos.None?
  {
    TrailState([], None, scrollY, 0.0, 0.0, None)
  }

  /** `t`'s queue is `s`'s with one more rectangle, `rect`, pushed through the one-in/one-out queue. */
  predicate SpawnedOne(s: TrailState, t: TrailState, rect: TrailRect) {
    t.queue == OneInOneOut(s.queue, rect)
  }

  /**
   * `handleMouseMove` for a pointer at `p`, at page scroll `scrollY`. An
   * untracked pointer spawns one rectangle at once and leaves the
   * accumulator alone; a tracked one adds the distance travelled, and spawns
   * one rectangle and restarts from zero exactly when the sum reaches 64.
   */
  function MouseMove(s: TrailState, p: Point, d: real, scrollY: real, draws: Draws): (t: TrailState)
    requires draws.Valid()
    requires s.lastPosition.Some? ==> IsDistance(d, s.lastPosition.value, p)
    ensures t.lastPosition == Some(p) && t.currentMousePos == Some(p)
    ensures t.lastScroll == s.lastScroll && t.scrollDistance == s.scrollDistance
    ensures s.lastPosition.None? ==>
              t.totalDistance == s.totalDistance &&
              SpawnedOne(s, t, CreateTrailRect(p.x, p.y, false, scrollY, draws))
    ensures s.lastPosition.Some? ==> t.totalDistance < MinDistance
    ensures s.lastPosition.Some? && s.totalDistance + d >= MinDistance ==>
              t.totalDistance == 0.0 && SpawnedOne(s, t, CreateTrailRect(p.x, p.y, false, scrollY, draws))
    ensures s.lastPosition.Some? && s.totalDistance + d < MinDistance ==>
              t.totalDistance == s.totalDistance + d && t.queue == s.queue
    ensures Inv(s) ==> Inv(t)
  {
    var s1 := s.(currentMousePos := Some(p));
    if s1.lastPosition.None? then
      s1.(lastPosition := Some(p),
          queue := OneInOneOut(s1.queue, CreateTrailRect(p.x, p.y, false, scrollY, draws)))
    else
      var total := s1.totalDistance + d;
      var s2 :=
        if total >= MinDistance then
          s1.(queue := OneInOneOut(s1.queue, CreateTrailRect(p.x, p.y, false, scrollY, draws)),
              totalDistance := 0.0)
        else
          s1.(totalDistance := total);
      s2.(lastPosition := Some(p))
  }

  /**
   * `handleScroll` with the page now at offset `currentScroll`. The scroll
   * travel since the last event is added to the scroll accumulator; one
   * rectangle is spawned, anchored at the last pointer position, and the
   * accumulator restarts from zero only when a pointer position is known and
   * the sum reached 64. With no pointer position known the accumulator keeps
   * growing.
   */
  function Scroll(s: TrailState, currentScroll: real, draws: Draws): (t: TrailState)
    requires draws.Valid()
    ensures t.lastScroll == currentScroll
    ensures t.lastPosition == s.lastPosition && t.currentMousePos == s.currentMousePos
    ensures t.totalDistance == s.totalDistance
    ensures var sum := s.scrollDistance + Abs(currentScroll - s.lastScroll);
            if s.currentMousePos.Some? && sum >= MinDistance then
              var m := s.currentMousePos.value;
              t.scrollDistance == 0.0 && SpawnedOne(s, t, CreateTrailRect(m.x, m.y, true, currentScroll, draws))
            else
              t.scrollDistance == sum && t.queue == s.queue
    ensures s.currentMousePos.Some? ==> t.scrollDistance < MinDistance
    ensures Inv(s) ==> Inv(t)
  {
    var delta := Abs(currentScroll - s.lastScroll);
    var s1 := s.(scrollDistance := s.scrollDistance + delta);
    var s2 :=
      if s1.currentMousePos.Some? && s1.scrollDistance >= MinDistance then
        var m := s1.currentMousePos.value;
        s1.(queue := OneInOneOut(s1.queue, CreateTrailRect(m.x, m.y, true, currentScroll, draws)),
            scrollDistance := 0.0)
      else
        s1;
    s2.(lastScroll := currentScroll)
  }

  /** The viewport rectangle [0, width] x [0, height], edges included. */
  predicate InViewport(p: Point, width: real, height: real) {
    0.0 <= p.x <= width && 0.0 <= p.y <= height
  }

  /**
   * `handleMouseLeave`: a pointer reported outside the viewport untracks the
   * pointer and zeroes the movement accumulator; inside it nothing changes.
   * The queue is never touched.
   */
  function MouseLeave(s: TrailState, p: Point, width: real, height: real): (t: TrailState)
    ensures t.queue == s.queue
    ensures InViewport(p, width, height) ==> t == s
    ensures !InViewport(p, width, height) ==>
              t.lastPosition.None? && t.totalDistance == 0.0 &&
              t.(lastPosition := s.lastPosition, totalDistance := s.totalDistance) == s
    ensures Inv(s) ==> Inv(t)
  {
    if p.y < 0.0 || p.y > height || p.x < 0.0 || p.x > width then
      s.(lastPosition := None, totalDistance := 0.0)
    else
      s
  }

  /**
   * One `mousemove` event: both listeners run, `handleMouseMove` first, as
   * they were registered.
   */
  function MouseEvent(s: TrailState, p: Point, d: real, scrollY: real,
                      width: real, height: real, draws: Draws): (t: TrailState)
    requires draws.Valid()
    requires s.lastPosition.Some? ==> IsDistance(d, s.lastPosition.value, p)
    ensures t.queue == MouseMove(s, p, d, scrollY, draws).queue
    ensures InViewport(p, width, height) ==> t == MouseMove(s, p, d, scrollY, draws)
    ensures Inv(s) ==> Inv(t)
  {
    MouseLeave(MouseMove(s, p, d, scrollY, draws), p, width, height)
  }

  /**
   * A pointer reported outside the viewport spawns a rectangle on every
   * event: the leave handler has untracked it after the previous event, so
   * the move handler takes the first-touch branch again.
   */
  lemma OutsideMovesSpawnEveryTime(s: TrailState, p: Point, q: Point, d: real, scrollY: real,
                                   width: real, height: real, draws1: Draws, draws2: Draws)
    requires draws1.Valid() && draws2.Valid()
    requires s.lastPosition.Some? ==> IsDistance(d, s.lastPosition.value, p)
    requires !InViewport(p, width, height)
    ensures var t := MouseEvent(s, p, d, scrollY, width, height, draws1);
            t.lastPosition.None? && t.totalDistance == 0.0 &&
            var u := MouseEvent(t, q, 0.0, scrollY, width, height, draws2);
            SpawnedOne(t, u, CreateTrailRect(q.x, q.y, false, scrollY, draws2))
  {
  }

  /** Teardown: every rectangle is removed. */
  function Teardown(s: TrailState): (t: TrailState)
    ensures t.queue == []
    ensures t.(queue := s.queue) == s
    ensures Inv(s) ==> Inv(t)
  {
    s.(queue := [])
  }

  /**
   * The rectangle a one-pixel move to the right of the tracked position
   * spawns: one when the move brings the accumulator to the threshold, none
   * otherwise.
   */
  function StepSpawned(s: TrailState, scrollY: real, draws: Draws): seq<TrailRect>
    requires draws.Valid() && s.lastPosition.Some?
  {
    var lp := s.lastPosition.value;
    if s.totalDistance + 1.0 >= MinDistance then [CreateTrailRect(lp.x + 1.0, lp.y, false, scrollY, draws)] else []
  }

  /** One move of one pixel to the right of the tracked position. */
  function StepRight(s: TrailState, scrollY: real, draws: Draws): (t: TrailState)
    requires draws.Valid() && s.lastPosition.Some?
    ensures t.lastPosition == Some(Point(s.lastPosition.value.x + 1.0, s.lastPosition.value.y))
    ensures t.queue == SpawnAll(s.queue, StepSpawned(s, scrollY, draws))
    ensures t.totalDistance == if s.totalDistance + 1.0 >= MinDistance then 0.0 else s.totalDistance + 1.0
  {
    var lp := s.lastPosition.value;
    var p := Point(lp.x + 1.0, lp.y);
    assert p.x - lp.x == 1.0 && p.y - lp.y == 0.0;
    assert IsDistance(1.0, lp, p);
    var t := MouseMove(s, p, 1.0, scrollY, draws);
    var r := CreateTrailRect(lp.x + 1.0, lp.y, false, scrollY, draws);
    assert [r][1..] == [];
    assert SpawnAll(s.queue, [r]) == OneInOneOut(s.queue, r);
    assert SpawnAll(s.queue, []) == s.queue;
    t
  }

  /** The rectangles a drag spawns, in the order it spawns them. */
  function DragSpawned(s: TrailState, scrollY: real, draws: seq<Draws>): seq<TrailRect>
    requires s.lastPosition.Some?
    requires forall i :: 0 <= i < |draws| ==> draws[i].Valid()
    decreases |draws|
  {
    if draws == [] then []
    else StepSpawned(s, scrollY, draws[0]) + DragSpawned(StepRight(s, scrollY, draws[0]), scrollY, draws[1..])
  }

  /**
   * A straight drag to the right in one-pixel moves, one set of draws per
   * move: the queue ends as the rectangles the drag spawned, pushed in order
   * through the one-in/one-out queue.
   */
  function Drag(s: TrailState, scrollY: real, draws: seq<Draws>): (t: TrailState)
    requires s.lastPosition.Some?
    requires forall i :: 0 <= i < |draws| ==> draws[i].Valid()
    ensures t.lastPosition.Some?
    ensures t.queue == SpawnAll(s.queue, DragSpawned(s, scrollY, draws))
    decreases |draws|
  {
    if draws == [] then s
    else
      var s1 := StepRight(s, scrollY, draws[0]);
      SpawnAllAppend(s.queue, StepSpawned(s, scrollY, draws[0]), DragSpawned(s1, scrollY, draws[1..]));
      Drag(s1, scrollY, draws[1..])
  }

  /**
   * Threshold gating over a drag: starting from a whole number of pixels `j`
   * in the accumulator, m one-pixel moves spawn exactly (j + m) / 64
   * rectangles and leave (j + m) % 64 pixels in the accumulator.
   */
  lemma {:induction false} DragCounts(s: TrailState, scrollY: real, draws: seq<Draws>, j: nat)
    requires s.lastPosition.Some?
    requires forall i :: 0 <= i < |draws| ==> draws[i].Valid()
    requires j < 64 && s.totalDistance == j as real
    ensures |DragSpawned(s, scrollY, draws)| == (j + |draws|) / 64
    ensures Drag(s, scrollY, draws).totalDistance == ((j + |draws|) % 64) as real
    decreases |draws|
  {
    if draws != [] {
      var s1 := StepRight(s, scrollY, draws[0]);
      var j1 := (j + 1) % 64;
      assert s1.totalDistance == j1 as real;
      assert |StepSpawned(s, scrollY, draws[0])| == (j + 1) / 64;
      DragCounts(s1, scrollY, draws[1..], j1);
      assert (j + |draws|) / 64 == (j + 1) / 64 + (j1 + |draws| - 1) / 64;
      assert (j + |draws|) % 64 == (j1 + |draws| - 1) % 64;
    }
  }

  /**
   * The queue after a drag holds the last seven of: the old queue followed
   * by the rectangles the drag spawned.
   */
  lemma DragQueue(s: TrailState, scrollY: real, draws: seq<Draws>)
    requires s.lastPosition.Some?
    requires forall i :: 0 <= i < |draws| ==> draws[i].Valid()
    requires |s.queue| <= MaxTrailRects
    ensures Drag(s, scrollY, draws).queue == Recent(s.queue + DragSpawned(s, scrollY, draws), MaxTrailRects)
  {
    SpawnAllRecent(s.queue, DragSpawned(s, scrollY, draws));
    assert Recent(s.queue, MaxTrailRects) == s.queue;
  }

  /**
   * The drag of 640 pixels from a freshly tracked pointer: ten spawns, an
   * empty accumulator, and a full queue holding the last seven of those ten
   * (spawns 4 to 10), oldest first.
   */
  lemma Drag640(s: TrailState, scrollY: real, draws: seq<Draws>)
    requires s.lastPosition.Some? && s.totalDistance == 0.0 && |s.queue| <= MaxTrailRects
    requires |draws| == 640 && forall i :: 0 <= i < |draws| ==> draws[i].Valid()
    ensures var spawned := DragSpawned(s, scrollY, draws);
            var t := Drag(s, scrollY, draws);
            |spawned| == 10 && t.totalDistance == 0.0 &&
            t.queue == spawned[3..] && |t.queue| == MaxTrailRects
  {
    var spawned := DragSpawned(s, scrollY, draws);
    DragCounts(s, scrollY, draws, 0);
    DragQueue(s, scrollY, draws);
    assert (0 + 640) / 64 == 10 && (0 + 640) % 64 == 0;
    var all := s.queue + spawned;
    assert |all| - MaxTrailRects == |s.queue| + 3;
    assert all[|s.queue| + 3..] == spawned[3..];
  }

  /**
   * The component instance: its refs as fields, and the history of every
   * rectangle it appended to the page, which the queue's invariant ties to
   * the last seven entries.
   */
  class TrailEngine {
    var trailRects: seq<TrailRect>
    var lastPosition: Option<Point>
    var lastScroll: real
    var totalDistance: real
    var scrollDistance: real
    var currentMousePos: Option<Point>
    ghost var spawned: seq<TrailRect>

    function State(): TrailState
      reads this
    {
      TrailState(trailRects, lastPosition, lastScroll, totalDistance, scrollDistance, currentMousePos)
    }

    /** The queue holds exactly the last seven rectangles spawned, oldest first. */
    ghost predicate QueueValid()
      reads this
    {
      trailRects == Recent(spawned, MaxTrailRects)
    }

    ghost predicate Valid()
      reads this
    {
      QueueValid() && Inv(State())
    }

    /** Mount: the refs' initial values, with `lastScrollRef` already taking the page offset. */
    constructor (scrollY: real)
      ensures Valid() && spawned == []
      ensures State() == Mounted(scrollY)
    {
      trailRects := [];
      lastPosition := None;
      lastScroll := scrollY;
      totalDistance := 0.0;
      scrollDistance := 0.0;
      currentMousePos := None;
      spawned := [];
      assert Recent<TrailRect>([], MaxTrailRects) == [];
    }

    /** `addNewRect`: create a rectangle, append it to the page and the queue, evict the oldest over capacity. */
    method AddNewRect(x: real, y: real, isScrollCreated: bool, scrollY: real, draws: Draws)
      requires QueueValid() && draws.Valid()
      modifies this
      ensures QueueValid()
      ensures var rect := CreateTrailRect(x, y, isScrollCreated, scrollY, draws);
              spawned == old(spawned) + [rect] && trailRects == OneInOneOut(old(trailRects), rect)
      ensures State() == old(State()).(queue := trailRects)
    {
      var newRect := CreateTrailRect(x, y, isScrollCreated, scrollY, draws);
      OneInOneOutRecent(spawned, newRect);
      trailRects := trailRects + [newRect];
      if |trailRects| > MaxTrailRects {
        trailRects := trailRects[1..];
      }
      spawned := spawned + [newRect];
    }

    method HandleMouseMove(p: Point, d: real, scrollY: real, draws: Draws)
      requires Valid() && draws.Valid()
      requires lastPosition.Some? ==> IsDistance(d, lastPosition.value, p)
      modifies this
      ensures Valid()
      ensures State() == MouseMove(old(State()), p, d, scrollY, draws)
      ensures old(spawned) <= spawned && |spawned| <= |old(spawned)| + 1
    {
      currentMousePos := Some(p);
      var lastPos := lastPosition;
      if lastPos.None? {
        lastPosition := Some(p);
        AddNewRect(p.x, p.y, false, scrollY, draws);
        return;
      }
      totalDistance := totalDistance + d;
      if totalDistance >= MinDistance {
        AddNewRect(p.x, p.y, false, scrollY, draws);
        totalDistance := 0.0;
      }
      lastPosition := Some(p);
    }

    method HandleScroll(currentScroll: real, draws: Draws)
      requires Valid() && draws.Valid()
      modifies this
      ensures Valid()
      ensures State() == Scroll(old(State()), currentScroll, draws)
      ensures old(spawned) <= spawned && |spawned| <= |old(spawned)| + 1
    {
      var scrollDelta := Abs(currentScroll - lastScroll);
      var mousePos := currentMousePos;
      scrollDistance := scrollDistance + scrollDelta;
      if mousePos.Some? && scrollDistance >= MinDistance {
        AddNewRect(mousePos.value.x, mousePos.value.y, true, currentScroll, draws);
        scrollDistance := 0.0;
      }
      lastScroll := currentScroll;
    }

    method HandleMouseLeave(p: Point, width: real, height: real)
      requires Valid()
      modifies this
      ensures Valid() && spawned == old(spawned)
      ensures State() == MouseLeave(old(State()), p, width, height)
    {
      if p.y < 0.0 || p.y > height || p.x < 0.0 || p.x > width {
        lastPosition := None;
        totalDistance := 0.0;
      }
    }

    /** A `mousemove` event reaching both listeners, in registration order. */
    method OnMouseMoveEvent(p: Point, d: real, scrollY: real, width: real, height: real, draws: Draws)
      requires Valid() && draws.Valid()
      requires lastPosition.Some? ==> IsDistance(d, lastPosition.value, p)
      modifies this
      ensures Valid()
      ensures State() == MouseEvent(old(State()), p, d, scrollY, width, height, draws)
    {
      HandleMouseMove(p, d, scrollY, draws);
      HandleMouseLeave(p, width, height);
    }

    /** The effect's cleanup: every rectangle is removed from the page and the queue emptied. */
    method Cleanup()
      requires Valid()
      modifies this
      ensures Valid() && spawned == []
      ensures State() == Teardown(old(State()))
    {
      trailRects := [];
      spawned := [];
    }
  }
}
