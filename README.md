# Cursor trail and focus pixelation, modelled in Dafny

This project models the two pieces of logic inside the browser effects of a
portfolio site styled as a parody encyclopedia article:

- **The cursor trail** (`CursorTrail.tsx`). Pointer travel and scroll travel
  each go into an accumulator. The movement accumulator spawns one decorative
  rectangle whenever it reaches 64 pixels. The scroll accumulator does so only
  while a pointer position is known; without one it keeps growing. The first move of an untracked
  pointer spawns a rectangle at once. A pointer reported outside the viewport
  becomes untracked. The rectangles sit in a queue of at most seven, with
  one-in/one-out eviction.
- **The focus pixelation** (`NotableProjectsPixelation.tsx`,
  `PixelatedImage.tsx`). An element's distance from the viewport's vertical
  centre is mapped through a clamped linear ramp to a block size in
  [1, 100], or to a level in [0, 1]. The block size gives a downscale buffer
  of `max(1, ceil(D / size))` cells. A centre crop makes the image cover its
  box. A 9:16 grid is upscaled to fill the box.

Modules:

- `TrailParticles`: how a rectangle is sized, coloured and placed; the queue.
- `CursorTrail`: the event handlers. They are written as functions on a
  `TrailState` value, and again as the methods of class `TrailEngine`. The
  class's fields are the component's refs, and each method is proved to
  follow its function. A ghost history of every spawned rectangle is kept
  tied to the queue.
- `NotableProjectsPixelation`: the distance, the block size, the cover crop
  and the buffer sizing. Class `PixelationCanvas` holds the two canvases that
  `pixelate` redraws.
- `PixelatedImage`: the level and the grid.
- `RealArith` and `Wrappers`: shared helpers.

Inputs the browser supplies are parameters:

- `Math.sqrt`: a distance `d` with `d >= 0` and `d * d = dx² + dy²`.
- `Math.random`: six draws in [0, 1) per rectangle, in the order the code
  draws them.
- `window.scrollY`, `innerWidth` and `innerHeight`.
- The container's bounding rectangle, which may be missing.
- Whether the image has loaded, and whether the canvas contexts exist.

Numbers are `real`, not IEEE doubles. The `Infinity` returned for a missing
container is the `Infinite` distance. The NaN of `0 / 0` appears only in
`PixelatedImage.LevelAsWritten`.

Facts about the code that shape the model:

- The portrait GIF is drawn from an `<img>` element. There is no GIF frame
  decoder and no frame disposal.
- `CursorTrail` takes no props, so the trail has no rhythm mode and no
  "playing" gate.
- Trail rectangles do not fade when the pointer is idle.
- The pixelation canvas is redrawn on every animation frame, whatever the
  block size.
- The trail's capacity is the constant 7.
- A scroll spawns its rectangle at `currentMousePos`. The leave handler never
  clears that position, so scrolls keep spawning after the pointer has left
  the viewport.

## Model

| member | source | states |
|---|---|---|
| `TrailParticles.RandomSize` | src/components/CursorTrail.tsx:31-32 | for a draw in [0,1) the size is an integer in [min, max] |
| `TrailParticles.RandomSizeCovers` | src/components/CursorTrail.tsx:31-32 | every integer in [min, max] is produced by some draw in [0,1) |
| `TrailParticles.RandomColor` | src/components/CursorTrail.tsx:20-30 | the colour is always one of the seven palette entries |
| `TrailParticles.RandomOffset` | src/components/CursorTrail.tsx:34 | the jitter lies in [-range/2, range/2) |
| `TrailParticles.IsHorizontal` | src/components/CursorTrail.tsx:33 | `randomBool`: the orientation draw picks a wide rectangle exactly when it is above 0.5 |
| `TrailParticles.CreateTrailRect` | src/components/CursorTrail.tsx:36-81 | keeps the anchor; wide rectangles are 40-120 x 8-25 px and tall ones 8-25 x 40-120; the colour is from the palette; the centre is within 32 px of the anchor (64 px horizontally for scroll-created ones), shifted vertically by the page scroll |
| `TrailParticles.OneInOneOut` | src/components/CursorTrail.tsx:89-96 | appending to a queue of at most 7 keeps it at most 7; the length grows by one exactly while below capacity; the new rectangle is last; only the head is ever dropped |
| `TrailParticles.OneInOneOutRecent` | src/components/CursorTrail.tsx:90-96 | one spawn turns "the last 7 of the history" into "the last 7 of the history plus the new rectangle" |
| `TrailParticles.SpawnAllAppend` | src/components/CursorTrail.tsx:90-96 | two runs of spawns one after the other leave the same queue as the single run of all of them |
| `TrailParticles.SpawnAllRecent` | src/components/CursorTrail.tsx:90-96 | strict FIFO: after any run of spawns the queue is exactly the last 7 spawned rectangles, in spawn order |
| `TrailParticles.SpawnFromEmpty` | src/components/CursorTrail.tsx:92-96 | from an empty trail, n spawns leave all n rectangles if n <= 7, otherwise the last 7 |
| `CursorTrail.Mounted` | src/components/CursorTrail.tsx:10-15 | the initial refs satisfy the handlers' invariant: nothing queued, nothing tracked, both accumulators at 0, last scroll at the page offset (line 100) |
| `CursorTrail.MouseMove` | src/components/CursorTrail.tsx:102-124 | untracked: exactly one rectangle is spawned at the pointer and the accumulator is unchanged; tracked: the accumulator grows by d, reaching 64 spawns exactly one and resets to 0, otherwise nothing is spawned; afterwards the accumulator is below 64 and the pointer is the last position; the invariant is preserved |
| `CursorTrail.Scroll` | src/components/CursorTrail.tsx:126-139 | the scroll accumulator grows by the absolute scroll delta; exactly one rectangle, scroll-anchored at the known pointer, is spawned and the accumulator reset only if a pointer position is known and the sum reached 64; otherwise it keeps growing; lastScroll becomes the current offset; the invariant is preserved |
| `CursorTrail.MouseLeave` | src/components/CursorTrail.tsx:141-151 | outside [0,innerWidth] x [0,innerHeight]: the pointer is untracked and the accumulator zeroed, nothing else changes; inside: nothing changes; the queue is never touched |
| `CursorTrail.MouseEvent` | src/components/CursorTrail.tsx:153-154 | one mousemove event runs the move handler and then the leave handler; the leave handler never changes what the move spawned, and inside the viewport the event is just the move |
| `CursorTrail.OutsideMovesSpawnEveryTime` | src/components/CursorTrail.tsx:105-151 | a pointer reported outside the viewport ends each event untracked, so the next event takes the first-touch branch and spawns again |
| `CursorTrail.Teardown` | src/components/CursorTrail.tsx:162-163 | teardown empties the queue and changes nothing else |
| `CursorTrail.StepRight` | src/components/CursorTrail.tsx:113-123 | a one-pixel move of a tracked pointer moves the last position one pixel, spawns exactly when the accumulator reaches 64 (the queue then takes that rectangle), and resets or advances the accumulator |
| `CursorTrail.Drag` | src/components/CursorTrail.tsx:113-123 | after a drag of one-pixel moves the pointer is tracked and the queue is the one-in/one-out queue fed, in order, with exactly the rectangles the drag spawned |
| `CursorTrail.DragCounts` | src/components/CursorTrail.tsx:113-123 | threshold gating: from j px in the accumulator, m one-pixel moves spawn exactly (j+m)/64 rectangles and leave (j+m)%64 px |
| `CursorTrail.DragQueue` | src/components/CursorTrail.tsx:90-96 | after a drag the queue is the last 7 of: the old queue followed by the rectangles the drag spawned |
| `CursorTrail.Drag640` | src/components/CursorTrail.tsx:113-123 | a 640 px drag from a tracked pointer with an empty accumulator spawns exactly ten rectangles and empties the accumulator; the queue is full and holds spawns 4 to 10, oldest first |
| `CursorTrail.TrailEngine.constructor` | src/components/CursorTrail.tsx:10-15 | the refs start as `Mounted(scrollY)` with an empty history |
| `CursorTrail.TrailEngine.AddNewRect` | src/components/CursorTrail.tsx:83-97 | the new rectangle is appended to the history, and the queue stays the last 7 of the history; no other ref changes |
| `CursorTrail.TrailEngine.HandleMouseMove` | src/components/CursorTrail.tsx:102-124 | the refs change as `MouseMove` says; the invariant holds; at most one rectangle joins the history |
| `CursorTrail.TrailEngine.HandleScroll` | src/components/CursorTrail.tsx:126-139 | the refs change as `Scroll` says; the invariant holds; at most one rectangle joins the history |
| `CursorTrail.TrailEngine.HandleMouseLeave` | src/components/CursorTrail.tsx:141-151 | the refs change as `MouseLeave` says; nothing is spawned |
| `CursorTrail.TrailEngine.OnMouseMoveEvent` | src/components/CursorTrail.tsx:153-154 | both listeners in registration order give `MouseEvent` |
| `CursorTrail.TrailEngine.Cleanup` | src/components/CursorTrail.tsx:157-164 | the queue is emptied and every other ref is kept |
| `NotableProjectsPixelation.DistanceFromCenter` | src/components/NotableProjectsPixelation.tsx:65-71 | infinite exactly when the container is missing; otherwise non-negative, and zero exactly when the centres coincide |
| `NotableProjectsPixelation.Normaliser` | src/components/NotableProjectsPixelation.tsx:118-120 | `maxDistance - FOCUS_ZONE_PX` is at least 1, so the division is always defined |
| `NotableProjectsPixelation.PixelSize` | src/components/NotableProjectsPixelation.tsx:113-124 | the block size is in [1, 100]; exactly 1 within 100 px; exactly 100 from `max(innerHeight, 101)` on, and for a missing container |
| `NotableProjectsPixelation.PixelSizeMonotone` | src/components/NotableProjectsPixelation.tsx:117-124 | the block size never decreases with distance, the missing container being farthest |
| `NotableProjectsPixelation.PixelSizeStrictlyIncreasing` | src/components/NotableProjectsPixelation.tsx:117-124 | inside the ramp the block size strictly increases with distance |
| `NotableProjectsPixelation.FullResolutionIffInFocus` | src/components/NotableProjectsPixelation.tsx:116-124 | the block size is at most 1 (the direct-draw branch) exactly when the container is within 100 px |
| `NotableProjectsPixelation.Ceil` | src/components/NotableProjectsPixelation.tsx:95-96 | `Math.ceil`: the least integer not below x |
| `NotableProjectsPixelation.ScaledSize` | src/components/NotableProjectsPixelation.tsx:95-96 | for block size >= 1 the buffer side is in [1, D]; its cells cover the D pixels, and one cell fewer would not |
| `NotableProjectsPixelation.DrawImageCover` | src/components/NotableProjectsPixelation.tsx:10-38 | nothing is drawn for a zero width or height; otherwise the crop lies within the source, is centred (2·sx + sWidth = srcW, 2·sy + sHeight = srcH), has the destination's aspect ratio, and keeps one full source dimension |
| `NotableProjectsPixelation.Redraw` | src/components/NotableProjectsPixelation.tsx:73-111 | without a canvas or a loaded image with a width nothing changes; a block size <= 1 shows the cover crop of the image for 270 x 480 and leaves the temporary canvas alone; a larger one sizes the temporary canvas to `ScaledSize` of each side and shows that many cells holding the cover crop for the buffer's size; the canvas is blank exactly when the image has no height or, for blocks, the temporary canvas has no context |
| `NotableProjectsPixelation.RedrawByFocus` | src/components/NotableProjectsPixelation.tsx:113-126 | for a loaded image with a width and a height: inside the focus zone the image is drawn sharp, leaving the temporary canvas as it was; outside it, and for a missing container, the temporary canvas is sized, and the image is drawn in blocks when the temporary canvas has a context |
| `NotableProjectsPixelation.PixelationCanvas.constructor` | src/components/NotableProjectsPixelation.tsx:43-44 | a blank visible canvas and no temporary canvas yet |
| `NotableProjectsPixelation.PixelationCanvas.Pixelate` | src/components/NotableProjectsPixelation.tsx:73-111 | the canvases change as `Redraw` says |
| `NotableProjectsPixelation.PixelationCanvas.UpdatePixelation` | src/components/NotableProjectsPixelation.tsx:113-127 | the canvases are redrawn with the block size for the container's distance |
| `PixelatedImage.DistanceFromCenter` | src/components/PixelatedImage.tsx:18-24 | the distance is non-negative, and zero exactly when the centres coincide |
| `PixelatedImage.MaxDistance` | src/components/PixelatedImage.tsx:26 | the centres are at most `maxDistance` apart exactly when the element overlaps or touches the viewport |
| `PixelatedImage.LevelAsWritten` | src/components/PixelatedImage.tsx:25-32 | as the code computes it: in [0,1] when `maxDistance > buffer`; 0 within the buffer unless the denominator is zero |
| `PixelatedImage.LevelAsWrittenLeavesRange` | src/components/PixelatedImage.tsx:26-32 | when `maxDistance <= buffer` the code's level can be -3, or NaN |
| `PixelatedImage.PixelationLevel` | src/components/PixelatedImage.tsx:24-32 | the level is in [0,1]; 0 within 200 px; 1 beyond both the buffer and `maxDistance`; equal to the code's value whenever `maxDistance > buffer`, and wherever the code's value is in [0,1] |
| `PixelatedImage.LevelMonotone` | src/components/PixelatedImage.tsx:31-32 | the level never decreases with distance |
| `PixelatedImage.HandleScroll` | src/components/PixelatedImage.tsx:15-35 | without a container the state is kept; otherwise the new level is `PixelationLevel` of the container's distance and `maxDistance`: in [0,1], 0 within the buffer, 1 for an element beyond the buffer that has left the viewport, and equal to the code's value whenever `maxDistance > 200` |
| `PixelatedImage.Mount` | src/components/PixelatedImage.tsx:12-38 | the initial level 1 followed by the first `handleScroll`: it stays 1 without a container; otherwise it is `PixelationLevel` of the container's distance and `maxDistance`: in [0,1], 0 within the buffer, and 1 for an element beyond the buffer that has left the viewport |
| `PixelatedImage.CurrentWidth` | src/components/PixelatedImage.tsx:46-51 | for a level in [0,1] the width is in [9, 1080]: 1080 at level 0, 9 at level 1 |
| `PixelatedImage.CurrentHeight` | src/components/PixelatedImage.tsx:46-52 | for a level in [0,1] the height is in [16, 1920]: 1920 at level 0, 16 at level 1; 16·width = 9·height for every level |
| `PixelatedImage.GridCoarsens` | src/components/PixelatedImage.tsx:51-52 | a higher level never gives a finer grid |
| `PixelatedImage.DisplayWidth` | src/components/PixelatedImage.tsx:55-56 | the box is 9:16: 16·displayWidth = 9·displayHeight |
| `PixelatedImage.Scale` | src/components/PixelatedImage.tsx:81 | the `scale(displayWidth / currentWidth)` factor maps the grid's width onto the box's width, and is positive for a box with a height |
| `PixelatedImage.ScaledGridFillsBox` | src/components/PixelatedImage.tsx:51-81 | the `scale(displayWidth / currentWidth)` transform maps the grid's width onto the box's width and its height onto the box's height |

## Left out

- GIF decoding and frame disposal: the code has none. `src/types/gifuct-js.d.ts` only declares a foreign library's types.
- A rhythm mode and a "playing" gate: `CursorTrail` takes no props. The `isPlaying` that `src/App.tsx` passes is ignored.
- `src/App.tsx`, `src/pages/Index.tsx`, `src/components/CustomCursor.tsx`: routing, providers, static markup and a cursor overlay. They have no logic to model.
- DOM and canvas side effects:
  - element creation, `appendChild` and `remove`;
  - style strings (`zIndex`, `borderRadius`, `position`);
  - `clearRect`, `drawImage`, `imageSmoothingEnabled` and `setTransform`.
  The queue stands for the rectangles on the page. `Picture` stands for what the visible canvas shows, not its pixels.
- `setupCanvasForDpr`: sizing the canvas backing store by `devicePixelRatio` and its transform. This is device plumbing.
- Scheduling: the `requestAnimationFrame` loop, the scroll `ticking` debounce, the resize handler, `img.onload`, and adding and removing listeners.
- `Math.sqrt` and `Math.random`: their results are parameters with stated ranges.
- IEEE doubles (rounding, overflow, NaN, Infinity): everything is `real`. Infinity is modelled only as the missing container's distance. NaN is modelled only in `LevelAsWritten`.
- `NotableProjectsPixelation.Redraw`: when the image's natural height is 0, `drawImageCover` draws nothing, and the model shows `Blank`. In the source, the temporary branch would still upscale an empty buffer onto the canvas, which is also blank.
- The `displayHeight` prop's default of 230: the box height is a parameter.
- `PixelatedImage.HandleScroll`: uses the corrected level `PixelationLevel`, as stated under Findings. It does not use the code's value when `maxDistance <= 200`, where that value can be -3 or NaN.
- `PixelatedImage.Mount`: takes its first level through `HandleScroll`, so it too uses the corrected level. When `maxDistance <= 200` the code's first level can be -3 or NaN, where the model's is in [0,1].

## Findings

| source | as written | input that shows it | evidently intended | confidence | as-written member | corrected member |
|---|---|---|---|---|---|---|
| src/components/PixelatedImage.tsx:26-32 | `min(max(0, d - 200) / (maxDistance - 200), 1)` with `maxDistance = windowHeight/2 + height/2`, which can be at most 200 | window 200 px high, element 100 px high at top 400: level -3 (grid wider than full resolution); element 100 px high centred in a 300 px window: 0/0 = NaN | a level in [0,1]: 0 within the buffer, 1 beyond it when there is no room for a ramp | medium, not executed | `PixelatedImage.LevelAsWrittenLeavesRange` | `PixelatedImage.PixelationLevel` |
