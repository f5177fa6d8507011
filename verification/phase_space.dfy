/**
 * `StandardMapVisualization` (assets/js/phase-space.js): the orbits of the
 * standard map, generated from a jittered grid of seeds plus four island
 * seeds, and painted incrementally by a cursor that walks the orbits'
 * points a bounded number per animation frame.
 *
 * Painting is recorded, not performed: `painted` is the sequence of phase
 * points drawn since the canvas was last cleared. Colours, point sizes and
 * the canvas scaling are not modelled; the pixel mapping of `drawPoint` is
 * `StandardMap.ToPixel`.
 */
module PhaseSpace {
  import opened Optional
  import opened IntSqrt
  import opened MathRandom
  import opened StandardMap

  function Min(a: int, b: int): int {
    if a <= b then a else b
  }

  /** Where an orbit came from, which decides its colour. */
  datatype OrbitKind =
    | Grid(hue: real)  // a jittered grid seed, coloured hsl(hue, 70%, 60%)
    | Special          // one of the four island seeds, in the primary colour
    | Clicked          // added by a click, in the highlight colour and 1.5 times larger

  datatype Orbit = Orbit(points: seq<Point>, kind: OrbitKind)

  /** The constructor's options; an absent one takes its default (`??`). */
  datatype Options = Options(
    K: Option<real>,
    numOrbits: Option<nat>,
    iterationsPerOrbit: Option<nat>,
    animationSpeed: Option<nat>)

  const DefaultK: real := 1.0
  const DefaultNumOrbits: nat := 40
  const DefaultIterationsPerOrbit: nat := 800
  const DefaultAnimationSpeed: nat := 20

  // ---------------------------------------------------------------------------
  // Initial conditions (generateOrbits)
  // ---------------------------------------------------------------------------

  /** `gridSize = ceil(sqrt(numOrbits · 0.7))`: the least g with 10·g² >= 7·numOrbits. */
  function GridSize(numOrbits: nat): nat {
    LeastRoot(7 * numOrbits, 10)
  }

  /** How many grid orbits `generateOrbits` creates: the grid is cut off at numOrbits. */
  function GridCount(numOrbits: nat): nat {
    Min(Sq(GridSize(numOrbits)), numOrbits)
  }

  /** The grid covers at least 70% of numOrbits and never exceeds it. */
  lemma GridCountBounds(numOrbits: nat)
    ensures GridCount(numOrbits) <= numOrbits
    ensures 10 * GridCount(numOrbits) >= 7 * numOrbits
  {
  }

  /** A grid with a cell in it has a positive size. */
  lemma GridSizePositive(numOrbits: nat)
    ensures GridCount(numOrbits) > 0 ==> GridSize(numOrbits) > 0
  {
    if GridSize(numOrbits) == 0 {
      assert Sq(0) == 0;
    }
  }

  /** How many times one run of `generateOrbits` calls `Math.random`: twice per orbit. */
  function RandomDraws(numOrbits: nat): nat {
    2 * (GridCount(numOrbits) + 4)
  }

  /** The seeds near the islands, before jitter: (0.5, 0), (0.5, 0.5), (0.25, 0.5), (0.75, 0.5). */
  const SpecialSeeds: seq<Point> := [Point(0.5, 0.0), Point(0.5, 0.5), Point(0.25, 0.5), Point(0.75, 0.5)]

  /**
   * The seed of orbit k, given the values `rand` that the calls of
   * `Math.random` in one run of `generateOrbits` return: orbit k takes
   * rand[2k] (for q) and rand[2k + 1] (for p).
   */
  function Seed(numOrbits: nat, rand: seq<real>, k: nat): Point
    requires k < GridCount(numOrbits) + 4 && |rand| == RandomDraws(numOrbits)
  {
    var g := GridSize(numOrbits);
    var rq, rp := rand[2 * k], rand[2 * k + 1];
    if k < GridCount(numOrbits) then
      GridSizePositive(numOrbits);
      CellSeed(k, g, rq, rp)
    else
      var s := SpecialSeeds[k - GridCount(numOrbits)];
      Point(s.q + (rq - 0.5) * 0.05, s.p + (rp - 0.5) * 0.05)
  }

  /** The seed of the k-th grid orbit, in column k / g and row k % g. */
  function CellSeed(k: nat, g: nat, rq: real, rp: real): Point
    requires g > 0
  {
    GridSeed(k / g, k % g, g, rq, rp)
  }

  /** The seed of grid cell (i, j): its centre, moved by up to ±0.01 in each direction. */
  function GridSeed(i: nat, j: nat, g: nat, rq: real, rp: real): Point
    requires g > 0
  {
    Point((i as real + 0.5) / g as real + (rq - 0.5) * 0.02,
          (j as real + 0.5) / g as real + (rp - 0.5) * 0.02)
  }

  /** The hue of the k-th grid orbit: k · 360 / g². */
  function Hue(k: nat, g: nat): real
    requires g > 0
  {
    k as real * (360.0 / Sq(g) as real)
  }

  /** The kind of orbit k: the grid orbits first, then the island orbits. */
  function KindOf(numOrbits: nat, k: nat): OrbitKind {
    var g := GridSize(numOrbits);
    if k < GridCount(numOrbits) then GridSizePositive(numOrbits); Grid(Hue(k, g)) else Special
  }

  /** Orbit k of those `generateOrbits` creates. */
  function InitialOrbit(K: real, sin: real -> real, rand: seq<real>,
                        numOrbits: nat, iterations: nat, k: nat): Orbit
    requires k < GridCount(numOrbits) + 4 && |rand| == RandomDraws(numOrbits)
  {
    Orbit(OrbitOf(K, sin, Seed(numOrbits, rand, k), iterations), KindOf(numOrbits, k))
  }

  /** The first `m` orbits `generateOrbits` creates. */
  function FirstOrbits(K: real, sin: real -> real, rand: seq<real>,
                       numOrbits: nat, iterations: nat, m: nat): (r: seq<Orbit>)
    requires m <= GridCount(numOrbits) + 4 && |rand| == RandomDraws(numOrbits)
    ensures |r| == m
  {
    if m == 0 then []
    else FirstOrbits(K, sin, rand, numOrbits, iterations, m - 1)
         + [InitialOrbit(K, sin, rand, numOrbits, iterations, m - 1)]
  }

  /** What `generateOrbits` leaves in `orbits`. */
  function InitialOrbits(K: real, sin: real -> real, rand: seq<real>,
                         numOrbits: nat, iterations: nat): (r: seq<Orbit>)
    requires |rand| == RandomDraws(numOrbits)
    ensures |r| == GridCount(numOrbits) + 4
  {
    FirstOrbits(K, sin, rand, numOrbits, iterations, GridCount(numOrbits) + 4)
  }

  lemma {:induction false} FirstOrbitsAt(K: real, sin: real -> real, rand: seq<real>,
                                         numOrbits: nat, iterations: nat, m: nat, k: nat)
    requires k < m <= GridCount(numOrbits) + 4 && |rand| == RandomDraws(numOrbits)
    ensures FirstOrbits(K, sin, rand, numOrbits, iterations, m)[k]
         == InitialOrbit(K, sin, rand, numOrbits, iterations, k)
  {
    if k < m - 1 {
      FirstOrbitsAt(K, sin, rand, numOrbits, iterations, m - 1, k);
    }
  }

  /**
   * `generateOrbits` makes min(g², numOrbits) grid orbits coloured by hue and
   * then four island orbits, each of `iterations` points, in that order;
   * the grid orbits start near their cell centres.
   */
  lemma InitialOrbitsShape(K: real, sin: real -> real, rand: seq<real>, numOrbits: nat, iterations: nat)
    requires |rand| == RandomDraws(numOrbits)
    ensures var r := InitialOrbits(K, sin, rand, numOrbits, iterations);
      && |r| == GridCount(numOrbits) + 4
      && (forall k :: 0 <= k < |r| ==> |r[k].points| == iterations)
      && (forall k :: 0 <= k < |r| ==> (r[k].kind.Grid? <==> k < GridCount(numOrbits)))
      && (forall k :: 0 <= k < |r| ==> !r[k].kind.Clicked?)
  {
    var r := InitialOrbits(K, sin, rand, numOrbits, iterations);
    forall k | 0 <= k < |r|
      ensures |r[k].points| == iterations
      ensures r[k].kind.Grid? <==> k < GridCount(numOrbits)
      ensures !r[k].kind.Clicked?
    {
      FirstOrbitsAt(K, sin, rand, numOrbits, iterations, |r|, k);
    }
  }

  /** Grid orbit i·g + j is the orbit of the jittered centre of cell (i, j), with hue (i·g + j) · 360 / g². */
  lemma GridOrbitAt(K: real, sin: real -> real, rand: seq<real>, numOrbits: nat, iterations: nat, i: nat, j: nat, k: nat)
    requires |rand| == RandomDraws(numOrbits)
    requires i < GridSize(numOrbits) && j < GridSize(numOrbits)
    requires k == i * GridSize(numOrbits) + j < numOrbits
    ensures k < GridCount(numOrbits)
    ensures InitialOrbit(K, sin, rand, numOrbits, iterations, k)
         == Orbit(OrbitOf(K, sin, GridSeed(i, j, GridSize(numOrbits), rand[2 * k], rand[2 * k + 1]), iterations),
                  Grid(Hue(k, GridSize(numOrbits))))
  {
    GridIndex(numOrbits, i, j, k);
    assert Seed(numOrbits, rand, k) == GridSeed(i, j, GridSize(numOrbits), rand[2 * k], rand[2 * k + 1]);
  }

  /** Island orbit s, after the grid orbits, is the orbit of special seed s jittered by up to ±0.025. */
  lemma IslandOrbitAt(K: real, sin: real -> real, rand: seq<real>, numOrbits: nat, iterations: nat, s: nat, k: nat)
    requires |rand| == RandomDraws(numOrbits) && s < |SpecialSeeds|
    requires k == GridCount(numOrbits) + s
    ensures InitialOrbit(K, sin, rand, numOrbits, iterations, k)
         == Orbit(OrbitOf(K, sin, Point(SpecialSeeds[s].q + (rand[2 * k] - 0.5) * 0.05,
                                        SpecialSeeds[s].p + (rand[2 * k + 1] - 0.5) * 0.05), iterations), Special)
  {
    assert Seed(numOrbits, rand, k) == Point(SpecialSeeds[s].q + (rand[2 * k] - 0.5) * 0.05,
                                             SpecialSeeds[s].p + (rand[2 * k + 1] - 0.5) * 0.05);
  }

  /**
   * Every generated orbit starts near its nominal seed: a grid orbit within
   * ±0.01 of its cell centre in each coordinate, an island orbit within
   * ±0.025 of its special seed.
   */
  lemma InitialOrbitJitter(K: real, sin: real -> real, rand: seq<real>, numOrbits: nat, iterations: nat, k: nat)
    requires |rand| == RandomDraws(numOrbits) && UnitDraws(rand)
    requires k < GridCount(numOrbits) + 4 && iterations > 0
    ensures var start := InitialOrbit(K, sin, rand, numOrbits, iterations, k).points[0];
            if k < GridCount(numOrbits) then
              GridSize(numOrbits) > 0 &&
              var centre := CellSeed(k, GridSize(numOrbits), 0.5, 0.5);
              -0.01 <= start.q - centre.q < 0.01 && -0.01 <= start.p - centre.p < 0.01
            else
              var nominal := SpecialSeeds[k - GridCount(numOrbits)];
              -0.025 <= start.q - nominal.q < 0.025 && -0.025 <= start.p - nominal.p < 0.025
  {
    OrbitInUnitSquare(K, sin, Seed(numOrbits, rand, k), iterations);
    assert 0.0 <= rand[2 * k] < 1.0 && 0.0 <= rand[2 * k + 1] < 1.0;
    if k < GridCount(numOrbits) {
      GridSizePositive(numOrbits);
    }
  }

  /** `built` holds the first orbits `generateOrbits` promises, in order. */
  ghost predicate Generated(K: real, sin: real -> real, rand: seq<real>,
                            numOrbits: nat, iterations: nat, built: seq<Orbit>)
  {
    && |rand| == RandomDraws(numOrbits)
    && |built| <= GridCount(numOrbits) + 4
    && built == FirstOrbits(K, sin, rand, numOrbits, iterations, |built|)
  }

  /** Cell (i, j) of the grid is visited as orbit k = i·g + j, which is a grid orbit when k < numOrbits. */
  lemma GridIndex(numOrbits: nat, i: nat, j: nat, k: nat)
    requires i < GridSize(numOrbits) && j < GridSize(numOrbits)
    requires k == i * GridSize(numOrbits) + j < numOrbits
    ensures k < GridCount(numOrbits)
    ensures k / GridSize(numOrbits) == i && k % GridSize(numOrbits) == j
  {
    CellIndexInGrid(i, j, GridSize(numOrbits));
    RowCol(i, j, GridSize(numOrbits));
  }

  /** Appending the orbit of grid orbit k extends the promised orbits by one. */
  lemma GridStep(K: real, sin: real -> real, rand: seq<real>, numOrbits: nat, iterations: nat,
                 k: nat, before: seq<Orbit>, q0: real, p0: real, points: seq<Point>)
    requires |before| == k < GridCount(numOrbits) && GridSize(numOrbits) > 0
    requires |rand| == RandomDraws(numOrbits)
    requires Generated(K, sin, rand, numOrbits, iterations, before)
    requires Point(q0, p0) == CellSeed(k, GridSize(numOrbits), rand[2 * k], rand[2 * k + 1])
    requires points == OrbitOf(K, sin, Point(q0, p0), iterations)
    ensures Generated(K, sin, rand, numOrbits, iterations, before + [Orbit(points, Grid(Hue(k, GridSize(numOrbits))))])
  {
    var orbit := Orbit(points, Grid(Hue(k, GridSize(numOrbits))));
    assert Seed(numOrbits, rand, k) == Point(q0, p0);
    assert InitialOrbit(K, sin, rand, numOrbits, iterations, k) == orbit;
    var built := before + [orbit];
    assert |built| == k + 1;
    assert built == FirstOrbits(K, sin, rand, numOrbits, iterations, k + 1);
  }

  /** Appending the orbit of island seed s extends the promised orbits by one. */
  lemma IslandStep(K: real, sin: real -> real, rand: seq<real>, numOrbits: nat, iterations: nat,
                   s: nat, before: seq<Orbit>, q0: real, p0: real, points: seq<Point>)
    requires s < |SpecialSeeds| && |before| == GridCount(numOrbits) + s
    requires Generated(K, sin, rand, numOrbits, iterations, before)
    requires q0 == SpecialSeeds[s].q + (rand[2 * |before|] - 0.5) * 0.05
    requires p0 == SpecialSeeds[s].p + (rand[2 * |before| + 1] - 0.5) * 0.05
    requires points == OrbitOf(K, sin, Point(q0, p0), iterations)
    ensures Generated(K, sin, rand, numOrbits, iterations, before + [Orbit(points, Special)])
  {
    var k := |before|;
    assert Seed(numOrbits, rand, k) == Point(q0, p0);
    assert InitialOrbit(K, sin, rand, numOrbits, iterations, k) == Orbit(points, Special);
    var built := before + [Orbit(points, Special)];
    assert |built| == k + 1;
    assert built == FirstOrbits(K, sin, rand, numOrbits, iterations, k + 1);
  }

  /** Index i·g + j of a grid with g rows lies in column i and row j. */
  lemma RowCol(i: nat, j: nat, g: nat)
    requires j < g
    ensures (i * g + j) / g == i && (i * g + j) % g == j
  {
    var k := i * g + j;
    var r, c := k / g, k % g;
    assert k == r * g + c;
    if r < i {
      MulLeft(g, r + 1, i);
    } else if r > i {
      MulLeft(g, i + 1, r);
    }
  }

  /** Cell (i, j) of a g × g grid has an index below g². */
  lemma CellIndexInGrid(i: nat, j: nat, g: nat)
    requires i < g && j < g
    ensures i * g + j < Sq(g)
  {
    MulLeft(g, i + 1, g);
    SqIsProduct(g);
  }

  // ---------------------------------------------------------------------------
  // The painting cursor: all orbits' points in order
  // ---------------------------------------------------------------------------

  /** Every point of the first k orbits, orbit by orbit: the order the cursor paints them. */
  function FlatFirst(orbits: seq<Orbit>, k: nat): seq<Point>
    requires k <= |orbits|
  {
    if k == 0 then [] else FlatFirst(orbits, k - 1) + orbits[k - 1].points
  }

  /** Every point of every orbit, in painting order. */
  function Flat(orbits: seq<Orbit>): seq<Point> {
    FlatFirst(orbits, |orbits|)
  }

  lemma SliceSnoc<T>(s: seq<T>, a: nat, b: nat)
    requires a <= b < |s|
    ensures s[a..b + 1] == s[a..b] + [s[b]]
  {
  }

  /** The points of the first k orbits are a prefix of all the points. */
  lemma {:induction false} FlatPrefix(orbits: seq<Orbit>, k: nat)
    requires k <= |orbits|
    ensures |FlatFirst(orbits, k)| <= |Flat(orbits)|
    ensures Flat(orbits)[..|FlatFirst(orbits, k)|] == FlatFirst(orbits, k)
    decreases |orbits| - k
  {
    if k < |orbits| {
      FlatPrefix(orbits, k + 1);
      var a, b := FlatFirst(orbits, k), FlatFirst(orbits, k + 1);
      assert Flat(orbits)[..|a|] == b[..|a|];
    }
  }

  /** Point `pi` of orbit `oi` sits at position |FlatFirst(orbits, oi)| + pi of the flat order. */
  lemma FlatAt(orbits: seq<Orbit>, oi: nat, pi: nat)
    requires oi < |orbits| && pi < |orbits[oi].points|
    ensures |FlatFirst(orbits, oi)| + pi < |Flat(orbits)|
    ensures Flat(orbits)[|FlatFirst(orbits, oi)| + pi] == orbits[oi].points[pi]
  {
    FlatPrefix(orbits, oi + 1);
    var b := FlatFirst(orbits, oi + 1);
    assert Flat(orbits)[|FlatFirst(orbits, oi)| + pi] == b[|FlatFirst(orbits, oi)| + pi];
  }

  /** The flat prefix up to point `pi` of orbit `oi`: whole orbits first, then part of one. */
  lemma FlatUpTo(orbits: seq<Orbit>, oi: nat, pi: nat)
    requires oi < |orbits| && pi <= |orbits[oi].points|
    ensures |FlatFirst(orbits, oi)| + pi <= |Flat(orbits)|
    ensures Flat(orbits)[..|FlatFirst(orbits, oi)| + pi] == FlatFirst(orbits, oi) + orbits[oi].points[..pi]
  {
    FlatPrefix(orbits, oi + 1);
    var a, b := FlatFirst(orbits, oi), FlatFirst(orbits, oi + 1);
    assert Flat(orbits)[..|a| + pi] == b[..|a| + pi];
  }

  /** A cursor past the last orbit has passed every point; one inside has not. */
  lemma CursorAtEnd(orbits: seq<Orbit>, oi: nat, pi: nat)
    requires oi <= |orbits|
    requires oi < |orbits| ==> pi < |orbits[oi].points|
    requires oi == |orbits| ==> pi == 0
    ensures |FlatFirst(orbits, oi)| + pi <= |Flat(orbits)|
    ensures oi == |orbits| <==> |FlatFirst(orbits, oi)| + pi == |Flat(orbits)|
  {
    if oi < |orbits| {
      FlatAt(orbits, oi, pi);
    }
  }

  /** Appending an orbit leaves the points of the earlier ones where they were. */
  lemma {:induction false} FlatAppend(orbits: seq<Orbit>, orbit: Orbit, k: nat)
    requires k <= |orbits|
    ensures FlatFirst(orbits + [orbit], k) == FlatFirst(orbits, k)
  {
    if k > 0 {
      FlatAppend(orbits, orbit, k - 1);
      assert (orbits + [orbit])[k - 1] == orbits[k - 1];
    }
  }

  // ---------------------------------------------------------------------------
  // The visualization object
  // ---------------------------------------------------------------------------

  class StandardMapVisualization {
    /** The kick strength; `setK` changes it. */
    var K: real
    /** The sine the map uses (standing for `Math.sin`). */
    const sin: real -> real
    const numOrbits: nat
    const iterationsPerOrbit: nat
    /** Points painted per animation frame. */
    const animationSpeed: nat

    var isRunning: bool
    var animationId: Option<nat>
    /** How many frames have been requested; the browser numbers them from 1. */
    var frameRequests: nat
    var orbits: seq<Orbit>
    var currentOrbitIndex: nat
    var currentPointIndex: nat
    var isBuilding: bool
    var displayWidth: real
    var displayHeight: real
    /** The phase points painted since the canvas was last cleared, in order. */
    ghost var painted: seq<Point>

    /**
     * Every orbit has a point, and the cursor names a point: an orbit index up
     * to the number of orbits and, inside an orbit, a point index within it.
     */
    ghost predicate Valid()
      reads this`orbits, this`currentOrbitIndex, this`currentPointIndex
    {
      && iterationsPerOrbit > 0
      && (forall k :: 0 <= k < |orbits| ==> |orbits[k].points| > 0)
      && currentOrbitIndex <= |orbits|
      && (currentOrbitIndex < |orbits| ==> currentPointIndex < |orbits[currentOrbitIndex].points|)
      && (currentOrbitIndex == |orbits| ==> currentPointIndex == 0)
    }

    /** How many points, in flat order, the cursor has passed. */
    ghost function Progress(): (n: nat)
      reads this`orbits, this`currentOrbitIndex, this`currentPointIndex
      requires Valid()
      ensures n <= |Flat(orbits)|
      ensures n == |Flat(orbits)| <==> currentOrbitIndex == |orbits|
    {
      CursorAtEnd(orbits, currentOrbitIndex, currentPointIndex);
      |FlatFirst(orbits, currentOrbitIndex)| + currentPointIndex
    }

    /**
     * The constructor: options fall back to their defaults, the
     * visualization is stopped, and `init` runs. `rand` holds the values
     * `Math.random` returns while the orbits are generated.
     */
    constructor (sin: real -> real, options: Options, width: real, height: real,
                 prefersReducedMotion: bool, rand: seq<real>)
      requires options.iterationsPerOrbit != Some(0)
      requires |rand| == RandomDraws(options.numOrbits.GetOr(DefaultNumOrbits)) && UnitDraws(rand)
      ensures this.sin == sin
      ensures K == options.K.GetOr(DefaultK)
      ensures numOrbits == options.numOrbits.GetOr(DefaultNumOrbits)
      ensures iterationsPerOrbit == options.iterationsPerOrbit.GetOr(DefaultIterationsPerOrbit)
      ensures animationSpeed == options.animationSpeed.GetOr(DefaultAnimationSpeed)
      ensures !isRunning && animationId == None && frameRequests == 0
      ensures Initialized(width, height, prefersReducedMotion, rand)
    {
      this.K := options.K.GetOr(DefaultK);
      this.sin := sin;
      numOrbits := options.numOrbits.GetOr(DefaultNumOrbits);
      iterationsPerOrbit := options.iterationsPerOrbit.GetOr(DefaultIterationsPerOrbit);
      animationSpeed := options.animationSpeed.GetOr(DefaultAnimationSpeed);
      isRunning := false;
      animationId := None;
      frameRequests := 0;
      orbits := [];
      currentOrbitIndex := 0;
      currentPointIndex := 0;
      isBuilding := true;
      painted := [];
      new;
      Init(width, height, prefersReducedMotion, rand);
    }

    /**
     * The state `init` leaves: the canvas has the container's size, the
     * orbits are generated and the cursor is rewound; with reduced motion
     * every orbit is painted at once and building is over, otherwise the
     * canvas is empty and building is about to start.
     */
    ghost predicate Initialized(width: real, height: real, prefersReducedMotion: bool, rand: seq<real>)
      reads this`orbits, this`currentOrbitIndex, this`currentPointIndex, this`K,
            this`isBuilding, this`painted, this`displayWidth, this`displayHeight
    {
      && Valid()
      && |rand| == RandomDraws(numOrbits) && UnitDraws(rand)
      && orbits == InitialOrbits(K, sin, rand, numOrbits, iterationsPerOrbit)
      && currentOrbitIndex == 0 && currentPointIndex == 0
      && isBuilding == !prefersReducedMotion
      && painted == (if prefersReducedMotion then Flat(orbits) else [])
      && displayWidth == width && displayHeight == height
    }

    /** `init`: resize the canvas, generate the orbits, and paint them all at once under reduced motion. */
    method Init(width: real, height: real, prefersReducedMotion: bool, rand: seq<real>)
      requires iterationsPerOrbit > 0 && |rand| == RandomDraws(numOrbits) && UnitDraws(rand)
      modifies this`displayWidth, this`displayHeight, this`painted, this`orbits,
               this`currentOrbitIndex, this`currentPointIndex, this`isBuilding
      ensures Initialized(width, height, prefersReducedMotion, rand)
    {
      ResizeCanvas(width, height);
      GenerateOrbits(rand);
      if prefersReducedMotion {
        DrawComplete();
      }
    }

    /** `resizeCanvas`: adopt the container's size and clear the canvas. */
    method ResizeCanvas(width: real, height: real)
      modifies this`displayWidth, this`displayHeight, this`painted
      ensures displayWidth == width && displayHeight == height && painted == []
    {
      displayWidth := width;
      displayHeight := height;
      ClearCanvas();
    }

    /** `handleResize`: resize, then repaint what was painted before. */
    method HandleResize(width: real, height: real)
      requires Valid()
      modifies this`displayWidth, this`displayHeight, this`painted, this`isBuilding
      ensures Valid()
      ensures displayWidth == width && displayHeight == height
      ensures old(isBuilding) ==> isBuilding && painted == Flat(orbits)[..Progress()]
      ensures !old(isBuilding) ==> !isBuilding && painted == Flat(orbits)
    {
      ResizeCanvas(width, height);
      if isBuilding {
        RedrawCurrentState();
      } else {
        DrawComplete();
      }
    }

    /**
     * `handleClick`: start a new orbit, twice as long as the others, at the
     * clicked point, append it, and paint it at once.
     */
    method HandleClick(clientX: real, clientY: real, rect: Rect)
      requires Valid()
      requires rect.width != 0.0 && rect.height != 0.0
      modifies this`orbits, this`painted
      ensures Valid()
      ensures var orbit := Orbit(OrbitOf(K, sin, ClickToPhase(clientX, clientY, rect), 2 * iterationsPerOrbit), Clicked);
              orbits == old(orbits) + [orbit] && painted == old(painted) + orbit.points
      ensures Progress() == old(Progress())
    {
      var pt := ClickToPhase(clientX, clientY, rect);
      var points := ComputeOrbit(pt.q, pt.p, iterationsPerOrbit * 2);
      var orbit := Orbit(points, Clicked);
      FlatAppend(orbits, orbit, currentOrbitIndex);
      orbits := orbits + [orbit];
      DrawOrbit(orbit);
    }

    /** `computeOrbit(q0, p0, iterations)`: the first `iterations` points of the orbit of (q0, p0). */
    method ComputeOrbit(q0: real, p0: real, iterations: nat) returns (points: seq<Point>)
      ensures points == OrbitOf(K, sin, Point(q0, p0), iterations)
    {
      points := [];
      var q, p := q0, p0;
      var i := 0;
      while i < iterations
        invariant 0 <= i <= iterations
        invariant points == OrbitOf(K, sin, Point(q0, p0), i)
        invariant Point(q, p) == Iterate(K, sin, Point(q0, p0), i)
      {
        points := points + [Point(q, p)];
        var next := Step(K, sin, Point(q, p));
        q, p := next.q, next.p;
        i := i + 1;
      }
    }

    /**
     * `generateOrbits`: replace the orbits by min(g², numOrbits) grid orbits
     * and four island orbits, and rewind the cursor. `rand` holds the values
     * its calls of `Math.random` return, in order.
     */
    method GenerateOrbits(rand: seq<real>)
      requires iterationsPerOrbit > 0 && |rand| == RandomDraws(numOrbits) && UnitDraws(rand)
      modifies this`orbits, this`currentOrbitIndex, this`currentPointIndex, this`isBuilding
      ensures Valid()
      ensures orbits == InitialOrbits(K, sin, rand, numOrbits, iterationsPerOrbit)
      ensures currentOrbitIndex == 0 && currentPointIndex == 0 && isBuilding
    {
      var built := GridOrbits(rand);
      built := IslandOrbits(rand, built);
      InitialOrbitsShape(K, sin, rand, numOrbits, iterationsPerOrbit);
      orbits := built;
      currentOrbitIndex := 0;
      currentPointIndex := 0;
      isBuilding := true;
    }

    /** The grid loops of `generateOrbits`: column i from 0 to g - 1, cut off at numOrbits. */
    method GridOrbits(rand: seq<real>) returns (built: seq<Orbit>)
      requires |rand| == RandomDraws(numOrbits)
      ensures |built| == GridCount(numOrbits) && Generated(K, sin, rand, numOrbits, iterationsPerOrbit, built)
    {
      var g := GridSize(numOrbits);
      built := [];
      var i := 0;
      while i < g
        invariant 0 <= i <= g
        invariant |built| == Min(i * g, numOrbits)
        invariant Generated(K, sin, rand, numOrbits, iterationsPerOrbit, built)
      {
        built := GridColumn(rand, g, i, i * g, built);
        assert (i + 1) * g == i * g + g;
        i := i + 1;
      }
      SqIsProduct(g);
    }

    /**
     * The inner grid loop: the orbits of column i, rows 0 to g - 1, while
     * fewer than numOrbits exist; the column's first cell is orbit `first`.
     */
    method GridColumn(rand: seq<real>, g: nat, i: nat, first: nat, before: seq<Orbit>) returns (built: seq<Orbit>)
      requires g == GridSize(numOrbits) && i < g && first == i * g
      requires |before| == Min(first, numOrbits) && Generated(K, sin, rand, numOrbits, iterationsPerOrbit, before)
      ensures |built| == Min(first + g, numOrbits) && Generated(K, sin, rand, numOrbits, iterationsPerOrbit, built)
    {
      built := before;
      var j := 0;
      while j < g
        invariant 0 <= j <= g
        invariant |built| == Min(first + j, numOrbits)
        invariant Generated(K, sin, rand, numOrbits, iterationsPerOrbit, built)
      {
        if |built| >= numOrbits {
          break;
        }
        built := GridCellOrbit(rand, g, i, j, first + j, built);
        j := j + 1;
      }
    }

    /** The body of the inner grid loop: the orbit of grid cell (i, j), which is orbit k. */
    method GridCellOrbit(rand: seq<real>, g: nat, i: nat, j: nat, k: nat, before: seq<Orbit>) returns (built: seq<Orbit>)
      requires g == GridSize(numOrbits) && i < g && j < g
      requires k == i * g + j && |before| == k < numOrbits
      requires Generated(K, sin, rand, numOrbits, iterationsPerOrbit, before)
      ensures |built| == k + 1
      ensures Generated(K, sin, rand, numOrbits, iterationsPerOrbit, built)
    {
      GridIndex(numOrbits, i, j, k);
      var seed := GridSeed(i, j, g, rand[2 * k], rand[2 * k + 1]);
      var points := ComputeOrbit(seed.q, seed.p, iterationsPerOrbit);
      GridStep(K, sin, rand, numOrbits, iterationsPerOrbit, k, before, seed.q, seed.p, points);
      built := before + [Orbit(points, Grid(Hue(k, g)))];
    }

    /** The island loop of `generateOrbits`: one orbit per special seed, while fewer than numOrbits + 4 exist. */
    method IslandOrbits(rand: seq<real>, before: seq<Orbit>) returns (built: seq<Orbit>)
      requires |before| == GridCount(numOrbits) && Generated(K, sin, rand, numOrbits, iterationsPerOrbit, before)
      ensures |built| == GridCount(numOrbits) + 4 && Generated(K, sin, rand, numOrbits, iterationsPerOrbit, built)
    {
      GridCountBounds(numOrbits);
      built := before;
      var s := 0;
      while s < |SpecialSeeds|
        invariant 0 <= s <= |SpecialSeeds|
        invariant |built| == GridCount(numOrbits) + s
        invariant Generated(K, sin, rand, numOrbits, iterationsPerOrbit, built)
      {
        if |built| >= numOrbits + 4 {
          break;
        }
        built := IslandSeedOrbit(rand, s, built);
        s := s + 1;
      }
    }

    /** The body of the island loop: the orbit of special seed s, jittered by up to ±0.025. */
    method IslandSeedOrbit(rand: seq<real>, s: nat, before: seq<Orbit>) returns (built: seq<Orbit>)
      requires s < |SpecialSeeds|
      requires |before| == GridCount(numOrbits) + s
      requires Generated(K, sin, rand, numOrbits, iterationsPerOrbit, before)
      ensures |built| == |before| + 1
      ensures Generated(K, sin, rand, numOrbits, iterationsPerOrbit, built)
    {
      var k := |before|;
      var seed := SpecialSeeds[s];
      var q0, p0 := seed.q + (rand[2 * k] - 0.5) * 0.05, seed.p + (rand[2 * k + 1] - 0.5) * 0.05;
      var points := ComputeOrbit(q0, p0, iterationsPerOrbit);
      IslandStep(K, sin, rand, numOrbits, iterationsPerOrbit, s, before, q0, p0, points);
      built := before + [Orbit(points, Special)];
    }

    /** The canvas is filled with the background colour: nothing is painted any more. */
    method ClearCanvas()
      modifies this`painted
      ensures painted == []
    {
      painted := [];
    }

    /** `drawPoint`: paint one point (at pixel `ToPixel(pt, displayWidth, displayHeight)`). */
    method DrawPoint(pt: Point)
      modifies this`painted
      ensures painted == old(painted) + [pt]
    {
      painted := painted + [pt];
    }

    /** `drawOrbit`: paint every point of an orbit, in order. */
    method DrawOrbit(orbit: Orbit)
      modifies this`painted
      ensures painted == old(painted) + orbit.points
    {
      var k := 0;
      while k < |orbit.points|
        invariant 0 <= k <= |orbit.points|
        invariant painted == old(painted) + orbit.points[..k]
      {
        DrawPoint(orbit.points[k]);
        k := k + 1;
      }
    }

    /**
     * `animate`: one animation frame. While building, paint the next points
     * in flat order, at most `animationSpeed` of them; once the cursor has
     * run past the last orbit, stop building. Then request the next frame.
     * A stopped visualization does nothing at all.
     */
    method Animate()
      requires Valid()
      modifies this`currentOrbitIndex, this`currentPointIndex, this`isBuilding, this`painted,
               this`animationId, this`frameRequests
      ensures Valid()
      ensures !isRunning ==> unchanged(this)
      ensures isRunning ==>
        var from := old(Progress());
        var total := |Flat(orbits)|;
        var drawn := if old(isBuilding) then Min(animationSpeed, total - from) else 0;
        && from <= total
        && Progress() == from + drawn
        && painted == old(painted) + Flat(orbits)[from..from + drawn]
        && isBuilding == (old(isBuilding) && total - from >= animationSpeed)
        && frameRequests == old(frameRequests) + 1
        && animationId == Some(frameRequests)
    {
      if !isRunning {
        return;
      }
      if isBuilding {
        PaintBatch();
      }
      frameRequests := frameRequests + 1;
      animationId := Some(frameRequests);
    }

    /**
     * The building half of `animate`: paint the next points in flat order,
     * at most `animationSpeed` of them, and stop building when the cursor is
     * found past the last orbit.
     */
    method PaintBatch()
      requires Valid() && isBuilding
      modifies this`currentOrbitIndex, this`currentPointIndex, this`isBuilding, this`painted
      ensures Valid()
      ensures var from := old(Progress());
        var total := |Flat(orbits)|;
        var drawn := Min(animationSpeed, total - from);
        && Progress() == from + drawn
        && painted == old(painted) + Flat(orbits)[from..from + drawn]
        && isBuilding == (total - from >= animationSpeed)
    {
      ghost var from := Progress();
      ghost var all := Flat(orbits);
      var i := 0;
      while i < animationSpeed
        invariant 0 <= i <= animationSpeed
        invariant Valid() && isBuilding
        invariant Progress() == from + i <= |all|
        invariant painted == old(painted) + all[from..from + i]
      {
        if currentOrbitIndex >= |orbits| {
          assert from + i == |all|;
          isBuilding := false;
          break;
        }
        ghost var before := painted;
        PaintNext();
        SliceSnoc(all, from, from + i);
        assert painted == before + [all[from + i]];
        i := i + 1;
      }
    }

    /** One pass of the building loop: paint the point under the cursor and advance it. */
    method PaintNext()
      requires Valid() && currentOrbitIndex < |orbits|
      modifies this`currentOrbitIndex, this`currentPointIndex, this`painted
      ensures Valid()
      ensures old(Progress()) < |Flat(orbits)|
      ensures Progress() == old(Progress()) + 1
      ensures painted == old(painted) + [Flat(orbits)[old(Progress())]]
    {
      FlatAt(orbits, currentOrbitIndex, currentPointIndex);
      var orbit := orbits[currentOrbitIndex];
      var pt := orbit.points[currentPointIndex];
      DrawPoint(pt);
      currentPointIndex := currentPointIndex + 1;
      if currentPointIndex >= |orbit.points| {
        currentPointIndex := 0;
        currentOrbitIndex := currentOrbitIndex + 1;
      }
    }

    /** `drawComplete`: clear, paint every orbit in full, and stop building. */
    method DrawComplete()
      requires Valid()
      modifies this`painted, this`isBuilding
      ensures Valid() && painted == Flat(orbits) && !isBuilding
    {
      ClearCanvas();
      var k := 0;
      while k < |orbits|
        invariant 0 <= k <= |orbits|
        invariant painted == FlatFirst(orbits, k)
      {
        DrawOrbit(orbits[k]);
        k := k + 1;
      }
      isBuilding := false;
    }

    /**
     * `redrawCurrentState`: clear, then paint exactly the points the cursor
     * has passed: all of orbits[0 .. currentOrbitIndex) and the first
     * currentPointIndex points of the current orbit.
     */
    method RedrawCurrentState()
      requires Valid()
      modifies this`painted
      ensures painted == FlatFirst(orbits, currentOrbitIndex) +
        (if currentOrbitIndex < |orbits| then orbits[currentOrbitIndex].points[..currentPointIndex] else [])
      ensures painted == Flat(orbits)[..Progress()]
    {
      ClearCanvas();
      var k := 0;
      while k < currentOrbitIndex
        invariant 0 <= k <= currentOrbitIndex
        invariant painted == FlatFirst(orbits, k)
      {
        DrawOrbit(orbits[k]);
        k := k + 1;
      }
      if currentOrbitIndex < |orbits| {
        var orbit := orbits[currentOrbitIndex];
        var j := 0;
        while j < currentPointIndex
          invariant 0 <= j <= currentPointIndex
          invariant painted == FlatFirst(orbits, currentOrbitIndex) + orbit.points[..j]
        {
          DrawPoint(orbit.points[j]);
          j := j + 1;
        }
        FlatUpTo(orbits, currentOrbitIndex, currentPointIndex);
      }
    }

    /** `start`: a no-op when running; otherwise mark running and run one frame at once. */
    method Start()
      requires Valid()
      modifies this`isRunning, this`currentOrbitIndex, this`currentPointIndex, this`isBuilding,
               this`painted, this`animationId, this`frameRequests
      ensures Valid()
      ensures old(isRunning) ==> unchanged(this)
      ensures !old(isRunning) ==>
        var from := old(Progress());
        var total := |Flat(orbits)|;
        var drawn := if old(isBuilding) then Min(animationSpeed, total - from) else 0;
        && isRunning
        && from <= total
        && Progress() == from + drawn
        && painted == old(painted) + Flat(orbits)[from..from + drawn]
        && isBuilding == (old(isBuilding) && total - from >= animationSpeed)
        && frameRequests == old(frameRequests) + 1
        && animationId == Some(frameRequests)
    {
      if isRunning {
        return;
      }
      isRunning := true;
      Animate();
    }

    /** `stop`: not running, and the pending frame (if any) cancelled. */
    method Stop()
      modifies this`isRunning, this`animationId
      ensures !isRunning && animationId == None
    {
      isRunning := false;
      if animationId.Some? {
        animationId := None;
      }
    }

    /** `setK`: a new kick strength; the canvas is cleared and all orbits, clicked ones included, are regenerated. */
    method SetK(newK: real, rand: seq<real>)
      requires Valid() && |rand| == RandomDraws(numOrbits) && UnitDraws(rand)
      modifies this`K, this`painted, this`orbits, this`currentOrbitIndex,
               this`currentPointIndex, this`isBuilding
      ensures Valid()
      ensures K == newK && painted == []
      ensures orbits == InitialOrbits(newK, sin, rand, numOrbits, iterationsPerOrbit)
      ensures currentOrbitIndex == 0 && currentPointIndex == 0 && isBuilding
    {
      K := newK;
      ClearCanvas();
      GenerateOrbits(rand);
      currentOrbitIndex := 0;
      currentPointIndex := 0;
      isBuilding := true;
    }

    /** `destroy`: stop (removing the event listeners is not modelled). */
    method Destroy()
      modifies this`isRunning, this`animationId
      ensures !isRunning && animationId == None
    {
      Stop();
    }
  }
}
