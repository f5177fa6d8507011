# Phase-space and exam-ranking engines, modelled in Dafny

This project models the two small simulation engines of the Bidhivj homepage.

**The standard-map visualization.** This is `StandardMapVisualization` in
`assets/js/phase-space.js`. It iterates the Chirikov standard map on the unit torus:
- The step order is the code's: `q' = mod1(q + p)` first, then
  `p' = mod1(p - K/2π · sin(2π q'))`, which uses the new q. The docstring
  at phase-space.js:6-9 states the same order.
- It seeds a jittered `g × g` grid of orbits, cut off at `numOrbits`, plus
  four orbits near the main islands.
- It paints the orbits incrementally with a cursor `(currentOrbitIndex,
  currentPointIndex)`, at most `animationSpeed` points per frame.
- Painting is recorded, not performed. The ghost field `painted` holds the
  phase points drawn since the canvas was last cleared.

**The exam-ranking animation.** This is `initExamRankings` and `shuffleArray`
in `assets/js/main.js`:
- `total` candidates sit in a `cols × cols` grid, where
  `cols = ceil(sqrt(total))`.
- `rank` survivors are drawn at random into a `Set`. The Set is modelled as a
  sequence without duplicates, kept in insertion order.
- "Bidhi" is the survivor nearest the grid centre. A strict `<` keeps the
  first-inserted survivor among equals, which is the code's tie-break.
- The non-survivors are shuffled in place by Fisher–Yates. They are
  eliminated in that order, revealed as a prefix whose length is driven by
  `eliminationProgress`.
- A three-phase animation follows: elimination, then zoom, then pulse. It
  starts once, when the canvas first becomes visible.

`Math.random()` is not called. Its results are passed in as a sequence of
reals in [0, 1), consumed in the order the code asks for them. `Math.sin` is
a parameter `sin: real -> real`. All arithmetic is on exact reals and
unbounded integers.

Files:
- `optional.dfy`: `Option`.
- `math_random.dfy`: the range of `Math.random()`.
- `int_sqrt.dfy`: the exact ceiling square root.
- `standard_map.dfy`: `mod1`, the map, orbits and the pixel mapping.
- `phase_space.dfy`: orbit generation and the visualization class.
- `shuffle.dfy`: `shuffleArray`.
- `exam_ranking.dfy`: the pure ranking logic and the animation step.
- `ranking_canvas.dfy`: the loops of the ranking setup and the animation's
  state.

## Model

| member | source | states |
|---|---|---|
| StandardMap.Mod1 | assets/js/phase-space.js:108-110 | `mod1(x)` always lies in [0, 1) |
| StandardMap.Mod1DiffersByInteger | assets/js/phase-space.js:108-110 | `x - mod1(x)` is an integer |
| StandardMap.Mod1Periodic | assets/js/phase-space.js:108-110 | `mod1(x + n) = mod1(x)` for every integer n |
| StandardMap.Mod1Fixes | assets/js/phase-space.js:108-110 | `mod1` is the identity on [0, 1) |
| StandardMap.Mod1Absorbs | assets/js/phase-space.js:108-110 | reducing an addend first leaves the reduced sum unchanged |
| StandardMap.Step | assets/js/phase-space.js:123-130 | one step lands in [0,1)² and its new q is `mod1(q + p)` of the old point |
| StandardMap.Iterate | assets/js/phase-space.js:122-131 | after at least one step the point lies in [0,1)² |
| StandardMap.OrbitOf | assets/js/phase-space.js:115-134 | `computeOrbit(q0, p0, n)` returns exactly n points |
| StandardMap.OrbitAt | assets/js/phase-space.js:122-131 | point i of the orbit is the seed after i steps |
| StandardMap.OrbitInUnitSquare | assets/js/phase-space.js:115-134 | the first point is the seed, unreduced; every later point lies in [0,1)² |
| StandardMap.OrbitSteps | assets/js/phase-space.js:123-130 | consecutive orbit points are one map step apart |
| StandardMap.ZeroKickStep | assets/js/phase-space.js:123-130 | with K = 0, one step moves q by p and keeps a reduced p |
| StandardMap.ZeroKickIsRotation | assets/js/phase-space.js:123-130 | with K = 0 and p0 in [0,1), n steps give q = mod1(q0 + n·p0) and leave p = p0 |
| StandardMap.ZeroKickKeepsMomentum | assets/js/phase-space.js:123-130 | with K = 0 and p0 in [0,1), every point of the orbit has p = p0 |
| StandardMap.ZeroKickFixedPoints | assets/js/phase-space.js:123-130 | with K = 0, a seed (q0, 0) with q0 in [0,1) is a fixed point |
| StandardMap.ToPixel | assets/js/phase-space.js:211-212 | `x = q·width`, `y = (1 − p)·height` (its range is in `PixelInCanvas`, its inverse in `ClickToPhase` and `PhasePixelRoundTrip`) |
| StandardMap.PixelInCanvas | assets/js/phase-space.js:210-212 | a point of [0,1)² is drawn inside the canvas, and p = 0 is drawn on the bottom edge |
| StandardMap.ClickToPhase | assets/js/phase-space.js:94-96 | the phase point of a click is drawn back at the clicked pixel |
| StandardMap.PhasePixelRoundTrip | assets/js/phase-space.js:211-212 | drawing a point and clicking where it was drawn returns the same point |
| IntSqrt.LeastRoot | assets/js/phase-space.js:149 | the result c satisfies den·c² ≥ num, and den·(c-1)² < num |
| IntSqrt.LeastRootIsLeast | assets/js/phase-space.js:149 | no smaller c has den·c² ≥ num |
| PhaseSpace.GridCountBounds | assets/js/phase-space.js:149-165 | the grid orbits number at most numOrbits and at least 70% of it |
| PhaseSpace.InitialOrbitsShape | assets/js/phase-space.js:139-189 | `generateOrbits` makes min(g², numOrbits) + 4 orbits of `iterationsPerOrbit` points: the grid orbits first, then the island orbits, and none of them clicked |
| PhaseSpace.GridOrbitAt | assets/js/phase-space.js:150-164 | orbit i·g + j is the orbit of the jittered centre of cell (i, j), with hue (i·g + j)·360/g² |
| PhaseSpace.IslandOrbitAt | assets/js/phase-space.js:168-184 | the island orbits follow the grid orbits and start at the four special seeds, each coordinate jittered by `(random − 0.5)·0.05` |
| PhaseSpace.InitialOrbitJitter | assets/js/phase-space.js:154-183 | with every draw in [0, 1), a grid orbit starts within ±0.01 of its cell centre in each coordinate, and an island orbit within ±0.025 of its special seed |
| PhaseSpace.GridSize | assets/js/phase-space.js:149 | `ceil(sqrt(0.7·numOrbits))`, the least g with 10·g² ≥ 7·numOrbits (its bounds are in `GridCountBounds`, its least-ness in `IntSqrt.LeastRootIsLeast`) |
| PhaseSpace.GridSeed | assets/js/phase-space.js:154-155 | the seed of cell (i, j): its centre plus `(random − 0.5)·0.02` per coordinate (the bound is in `InitialOrbitJitter`, the indexing in `GridOrbitAt`) |
| PhaseSpace.Hue | assets/js/phase-space.js:160 | the hue `(i·g + j)·360/g²` of a grid orbit (tied to cell (i, j) by `GridOrbitAt`) |
| PhaseSpace.Seed | assets/js/phase-space.js:150-183 | orbit k's seed from the draws 2k and 2k + 1: a grid cell's for k below the grid count, else a special seed's (`GridOrbitAt`, `IslandOrbitAt`, `InitialOrbitJitter`) |
| PhaseSpace.GridIndex | assets/js/phase-space.js:150-160 | cell (i, j) is orbit i·g + j, and that orbit has column i and row j |
| PhaseSpace.GridStep | assets/js/phase-space.js:152-163 | appending a grid cell's orbit extends the generated prefix by one |
| PhaseSpace.IslandStep | assets/js/phase-space.js:175-184 | appending an island seed's orbit extends the generated prefix by one |
| PhaseSpace.FlatPrefix | assets/js/phase-space.js:235-253 | the points of the first k orbits form a prefix of all points in painting order |
| PhaseSpace.FlatAt | assets/js/phase-space.js:243-252 | the cursor (oi, pi) names the point at flat position \|points of orbits[0..oi)\| + pi |
| PhaseSpace.FlatUpTo | assets/js/phase-space.js:276-293 | the flat prefix up to the cursor is the whole orbits before it, then the first pi points of the current orbit |
| PhaseSpace.CursorAtEnd | assets/js/phase-space.js:238-241 | the cursor has passed every point exactly when `currentOrbitIndex` equals the number of orbits |
| PhaseSpace.FlatAppend | assets/js/phase-space.js:99-102 | appending an orbit leaves the points of the earlier orbits in place |
| PhaseSpace.StandardMapVisualization.Progress | assets/js/phase-space.js:235-253 | the cursor's flat position is at most the number of points, with equality exactly past the last orbit |
| PhaseSpace.StandardMapVisualization.constructor | assets/js/phase-space.js:17-50 | defaults K = 1, 40 orbits, 800 iterations, speed 20; the visualization is stopped, and `init` has run |
| PhaseSpace.StandardMapVisualization.Init | assets/js/phase-space.js:52-61 | the canvas takes the container's size and the orbits are generated; under reduced motion every orbit is painted and building is over |
| PhaseSpace.StandardMapVisualization.ResizeCanvas | assets/js/phase-space.js:63-80 | the display size is the container's and the canvas is cleared |
| PhaseSpace.StandardMapVisualization.HandleResize | assets/js/phase-space.js:82-90 | while building, the repaint is exactly the points passed so far; otherwise it is every point |
| PhaseSpace.StandardMapVisualization.HandleClick | assets/js/phase-space.js:92-106 | appends exactly one clicked orbit of 2·iterationsPerOrbit points from the clicked phase point, paints it at once, and leaves the cursor where it was |
| PhaseSpace.StandardMapVisualization.ComputeOrbit | assets/js/phase-space.js:115-134 | the loop returns the orbit `OrbitOf` of the seed |
| PhaseSpace.StandardMapVisualization.GenerateOrbits | assets/js/phase-space.js:139-189 | the orbits become `InitialOrbits`, and the cursor is reset to (0, 0) with `isBuilding` set |
| PhaseSpace.StandardMapVisualization.GridOrbits | assets/js/phase-space.js:150-165 | the grid loops produce exactly the first min(g², numOrbits) promised orbits |
| PhaseSpace.StandardMapVisualization.GridColumn | assets/js/phase-space.js:151-164 | column i adds the orbits of its cells until numOrbits orbits exist |
| PhaseSpace.StandardMapVisualization.GridCellOrbit | assets/js/phase-space.js:152-163 | one cell adds exactly the next promised orbit |
| PhaseSpace.StandardMapVisualization.IslandOrbits | assets/js/phase-space.js:175-184 | the island loop adds the four island orbits in order |
| PhaseSpace.StandardMapVisualization.IslandSeedOrbit | assets/js/phase-space.js:176-183 | one special seed adds exactly the next promised orbit |
| PhaseSpace.StandardMapVisualization.ClearCanvas | assets/js/phase-space.js:277-278 | after the fill nothing is painted |
| PhaseSpace.StandardMapVisualization.DrawPoint | assets/js/phase-space.js:210-218 | paints exactly one more point |
| PhaseSpace.StandardMapVisualization.DrawOrbit | assets/js/phase-space.js:223-227 | paints the orbit's points in order |
| PhaseSpace.StandardMapVisualization.Animate | assets/js/phase-space.js:232-257 | stopped: nothing changes. Running: at most `animationSpeed` points are painted, namely the next ones in flat order, and the cursor advances by that many. Building stops in the frame that finds fewer than `animationSpeed` points left, and a new frame is requested |
| PhaseSpace.StandardMapVisualization.PaintBatch | assets/js/phase-space.js:235-254 | the building loop paints min(animationSpeed, remaining) points in flat order, and clears `isBuilding` exactly when fewer than `animationSpeed` points were left |
| PhaseSpace.StandardMapVisualization.PaintNext | assets/js/phase-space.js:243-252 | paints the point under the cursor and advances the cursor by one point |
| PhaseSpace.StandardMapVisualization.DrawComplete | assets/js/phase-space.js:262-271 | the canvas holds every point of every orbit, and building is over |
| PhaseSpace.StandardMapVisualization.RedrawCurrentState | assets/js/phase-space.js:276-293 | paints exactly the points the cursor has passed: orbits[0..currentOrbitIndex) and the first currentPointIndex points of the current orbit |
| PhaseSpace.StandardMapVisualization.Start | assets/js/phase-space.js:295-299 | already running: no-op. Otherwise the visualization runs, and one frame is animated at once |
| PhaseSpace.StandardMapVisualization.Stop | assets/js/phase-space.js:301-307 | not running, and the pending frame id is cleared |
| PhaseSpace.StandardMapVisualization.SetK | assets/js/phase-space.js:312-320 | the new K is used, the canvas is cleared, the orbits are regenerated (clicked orbits are dropped), and the cursor is rewound |
| PhaseSpace.StandardMapVisualization.Destroy | assets/js/phase-space.js:322-326 | stops the visualization |
| Shuffle.Pick | assets/js/main.js:403 | `floor(random · (i + 1))` is an index j ≤ i |
| Shuffle.Swap | assets/js/main.js:404 | exchanges two entries and keeps the length (`SwapPermutes` shows it keeps the multiset) |
| Shuffle.ShuffleFrom | assets/js/main.js:402-405 | the swaps for i down to 1, taking draw \|s\| − 1 − i at step i; keeps the length (`ShuffleFromPermutes` shows it keeps the multiset) |
| Shuffle.SwapPermutes | assets/js/main.js:404 | a swap keeps the multiset of elements |
| Shuffle.FisherYates | assets/js/main.js:401-407 | the shuffle keeps the length |
| Shuffle.ShuffleFromPermutes | assets/js/main.js:402-405 | the swaps for i down to 1 keep the multiset |
| Shuffle.FisherYatesPermutes | assets/js/main.js:401-407 | the shuffle is a permutation of its input, whatever the draws |
| Shuffle.ShuffleArray | assets/js/main.js:401-407 | permutes the same array in place, leaving `FisherYates` of its old contents, with the multiset unchanged |
| ExamRanking.Cols | assets/js/main.js:209 | cols is the least c with c² ≥ total |
| ExamRanking.ColsIsLeast | assets/js/main.js:209 | no smaller square grid holds every candidate |
| ExamRanking.CellInGrid | assets/js/main.js:225-226 | for every i < total, both `i % cols` and `floor(i / cols)` are below cols |
| ExamRanking.DoubledDistance | assets/js/main.js:227 | the integer distance is exactly twice `\|col - cols/2\| + \|row - cols/2\|` |
| ExamRanking.DoubledDistanceOrder | assets/js/main.js:227-228 | comparing doubled distances decides what `dist < minDist` decides |
| ExamRanking.Insert | assets/js/main.js:216 | `Set.add` keeps the old members, adds x, and grows by at most one |
| ExamRanking.Survivors | assets/js/main.js:214-217 | the Set the loop builds from the draws, or `None` when they run out first (`SurvivorsFinishIff`, `SurvivorsShape`, `SurvivorsNeedRankAtMostTotal`) |
| ExamRanking.SurvivorDraws | assets/js/main.js:214-217 | the loop consumes at most the draws given |
| ExamRanking.SurvivorsFinishIff | assets/js/main.js:214-217 | the survivor loop finishes on the given draws iff they contain at least `rank` different picks |
| ExamRanking.SurvivorsShape | assets/js/main.js:214-217 | for total > 0, a finished loop yields exactly `rank` distinct indices, all in [0, total) |
| ExamRanking.SurvivorsNeedRankAtMostTotal | assets/js/main.js:214-217 | for total > 0, with rank > total the loop never finishes, whatever the draws |
| ExamRanking.EmptyGridStillFinishes | assets/js/main.js:214-217 | with total = 0 the loop is not endless: rank = 1 finishes on one draw with the Set {0}, an index outside the candidates |
| ExamRanking.CenterIndex | assets/js/main.js:220 | `floor(cols/2)·cols + floor(cols/2)`, Bidhi's start value (`CenterMayLieOutside` shows it can lie past the last candidate) |
| ExamRanking.CenterDistance | assets/js/main.js:225-227 | the Manhattan distance of a cell to (cols/2, cols/2) on exact reals (decided on integers by `DoubledDistance` and `DoubledDistanceOrder`) |
| ExamRanking.BidhiIsSurvivor | assets/js/main.js:220-232 | with at least one survivor, Bidhi is a survivor |
| ExamRanking.BidhiUnique | assets/js/main.js:220-232 | "nearest to the centre, first in insertion order among equals" determines a single index |
| ExamRanking.CenterMayLieOutside | assets/js/main.js:220-221 | with no survivor, Bidhi stays `centerIndex`, which can be outside the candidates (3 for total = 2) |
| ExamRanking.NonSurvivors | assets/js/main.js:246 | the keys 0..total−1, in order, without the survivors (`NonSurvivorsMembers`, `NonSurvivorsDistinct`, `NonSurvivorsCount`) |
| ExamRanking.NonSurvivorsMembers | assets/js/main.js:246 | the filtered keys are exactly the candidates that are not survivors |
| ExamRanking.NonSurvivorsDistinct | assets/js/main.js:246 | the filtered keys contain no duplicates |
| ExamRanking.NonSurvivorsCount | assets/js/main.js:246 | there are total − rank non-survivors |
| ExamRanking.EliminationOrderShape | assets/js/main.js:246 | any shuffle of the non-survivors has length total − rank, has no duplicates, and is disjoint from the survivors while covering every other candidate |
| ExamRanking.EliminatedCount | assets/js/main.js:251 | the eliminated count is at most the order's length, and equals it at progress 1 |
| ExamRanking.EliminatedSet | assets/js/main.js:251-252 | the first `EliminatedCount` entries of the order, as a set (`EliminatedGrows`, `EliminatedAreNonSurvivors`) |
| ExamRanking.EliminatedGrows | assets/js/main.js:251-252 | more progress never shrinks the eliminated set |
| ExamRanking.EliminatedAreNonSurvivors | assets/js/main.js:251-252 | the eliminated set never holds a survivor, and at progress 1 it is exactly the non-survivors |
| ExamRanking.DotStyleOf | assets/js/main.js:318-348 | the branch `drawDots` takes for one dot: eliminated, else Bidhi's glow, else survivor, else remaining (`DotStylesDuringReveal`) |
| ExamRanking.DotStyles | assets/js/main.js:311-350 | one style per candidate, `total` of them, index by index |
| ExamRanking.DotStylesDuringReveal | assets/js/main.js:318-348 | a survivor is never drawn eliminated; Bidhi glows while shown after 0.8 progress; at progress 1 exactly the non-survivors are drawn eliminated |
| ExamRanking.EaseOutCubic | assets/js/main.js:352-354 | `1 − (1 − t)³` (`EaseOutCubicShape`) |
| ExamRanking.EaseOutCubicShape | assets/js/main.js:352-354 | the easing maps 0 to 0 and 1 to 1, stays in [0, 1], and is monotone on [0, 1] |
| ExamRanking.Tick | assets/js/main.js:360-377 | one started `animate` step of the phase machine (`TickStep`, `TicksMonotone`, `EliminationFrames`, `ZoomFrames`, `PhaseLengths`) |
| ExamRanking.TickStep | assets/js/main.js:360-377 | one step keeps the state consistent: the phase moves forward by at most one, and both progresses stay in [0, 1] without decreasing; zoom is 0 during phase 0 |
| ExamRanking.TicksMonotone | assets/js/main.js:356-381 | over any number of frames the phase only moves 0 → 1 → 2, and the progresses never decrease |
| ExamRanking.EliminationFrames | assets/js/main.js:360-365 | the first 39 frames each add 0.025 to the elimination progress |
| ExamRanking.ZoomFrames | assets/js/main.js:367-373 | frames 41 to 73 each add 0.03 to the zoom and 0.1 to the pulse |
| ExamRanking.PhaseLengths | assets/js/main.js:359-377 | elimination lasts exactly 40 frames and the zoom 34 more |
| RankingCanvas.ChooseSurvivors | assets/js/main.js:214-217 | the loop yields `Survivors` of the draws: when it finishes, that is `rank` distinct indices below total, and it reports how many draws it used |
| RankingCanvas.FindBidhi | assets/js/main.js:220-232 | the search returns the first-inserted survivor at the least distance to the centre, or `centerIndex` when there are no survivors |
| RankingCanvas.MakeEliminationOrder | assets/js/main.js:246 | the order is the Fisher–Yates shuffle of the non-survivors, and so a permutation of them |
| RankingCanvas.RankingAnimation.Frame | assets/js/main.js:251-255 | the dot styles `draw()` paints in the current state (`FrameShows`) |
| RankingCanvas.RankingAnimation.FrameShows | assets/js/main.js:318-348 | in every reachable state a survivor is never drawn eliminated and Bidhi glows late in the elimination; from the zoom on, exactly the non-survivors are drawn eliminated |
| RankingCanvas.RankingAnimation.constructor | assets/js/main.js:240-246 | the animation starts unstarted in phase 0 with both progresses at 0 |
| RankingCanvas.RankingAnimation.Draw | assets/js/main.js:248-255 | records the style of every dot in the current state |
| RankingCanvas.RankingAnimation.OnIntersect | assets/js/main.js:387-395 | the first visible entry starts the animation and requests one frame; afterwards the callback has no effect |
| RankingCanvas.RankingAnimation.Animate | assets/js/main.js:356-381 | nothing happens before the start. Afterwards the state takes one `Tick`, one frame is drawn, and the next frame is requested |
| RankingCanvas.InitExamRanking | assets/js/main.js:208-246 | set-up succeeds exactly when the draws finish the survivor loop and then cover the shuffle. The canvas holds those survivors and the shuffled non-survivors, has not started, and has drawn one frame |

## Left out

- Colours, point sizes and all canvas drawing are left out: `hslToRgb`, `getHighlightColor`, arcs, gradients, text, `dotSize`/`gap` and the zoom circle. Painting is recorded as the sequence of painted points or dot styles.
- `devicePixelRatio` scaling and event-listener registration and removal are left out.
- `requestAnimationFrame` and `cancelAnimationFrame` are modelled as a counter of frame requests. The 300 ms `setTimeout` before the first ranking frame is not modelled.
- `Math.sin` is a parameter, and `Math.random()` is a sequence of given draws. No probabilistic claim is made: uniformity of the shuffle or of the survivor choice is not modelled.
- Floating point is modelled as exact reals. The phase lengths of `PhaseLengths` do hold in doubles: elimination reaches 1 on frame 40 and the zoom on frame 34. Rounding shows up elsewhere, as the next three lines say.
- ExamRanking.EliminatedCount: on exact reals. In doubles the summed progress is sometimes a little below `frame·0.025` (0.19999999999999998 on frame 8). Then `Math.floor(progress · len)` can be one lower when frame·len/40 is a whole number: with len = 4, frame 10 eliminates 0 dots, not 1. It is not always lower: with len = 20, frame 6 still eliminates 3, since the product rounds to exactly 3.
- ExamRanking.DotStylesDuringReveal: the `progress > 0.8` glow test is on exact reals, where it first holds on frame 33 (0.825). In doubles the progress on frame 32 is 0.8000000000000004, so Bidhi glows one frame earlier.
- StandardMap.Mod1: the [0, 1) bound holds on exact reals. In doubles, `x - Math.floor(x)` is exactly 1 for a negative x within about 2⁻⁵⁴ of 0 (mod1(−1e-17) = 1). So a step from (0.5, 0) can give p = 1.
- ExamRanking.SurvivorsShape, ExamRanking.SurvivorsNeedRankAtMostTotal: stated for total > 0. With total = 0 every pick is `floor(r · 0)` = 0, so rank = 1 finishes with {0} (`EmptyGridStillFinishes`), and rank ≥ 2 loops forever.
- `initPhaseSpaceVisualization` is not part of this model: mobile detection, the slider's `parseFloat`/`toFixed`, and `window.phaseSpaceViz`.
- The DOM side of `initExamRankings` is not modelled: `querySelectorAll`, `parseInt` of the dataset strings, `toLocaleString`, the percentile text and the canvas size. Several rankings are modelled one canvas at a time.
- RankingCanvas.InitExamRanking: requires `total > 0`. With `total = 0` the code computes `cols = 0`, and `i % 0` gives NaN.
- RankingCanvas.ChooseSurvivors: the source's loop draws without end. Here it is given finitely many draws and returns `None` when they run out first.
- `drawDots`'s loop over the indices is modelled as the sequence of styles it paints (`ExamRanking.DotStyles`), not as a loop.
- PhaseSpace.StandardMapVisualization.GenerateOrbits: pushes onto `this.orbits` one orbit at a time. The model builds the same sequence locally and assigns it once. Between the pushes only the loops' own `this.orbits.length` checks read it, and the model makes those checks on the local sequence's length.
- PhaseSpace.StandardMapVisualization.constructor: requires `iterationsPerOrbit ≠ 0`. With 0, the code's `animate` would read a point of an empty orbit and throw.
- PhaseSpace.StandardMapVisualization.HandleClick: requires a non-empty bounding rectangle. With a width or height of 0, the code divides by zero.
- RankingCanvas.RankingAnimation.FrameShows: the Bidhi-glow clause is stated only when `rank > 0`. With no survivors, `centerIndex` can itself be eliminated and then is not drawn glowing.
