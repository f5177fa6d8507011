/**
 * The Chirikov standard map as `StandardMapVisualization` iterates it
 * (assets/js/phase-space.js), and the mapping between phase-space points
 * and canvas pixels.
 *
 * `Math.sin` is not modelled: every function takes the sine as a parameter
 * `sin: real -> real`, so what is proved here holds for any sine.
 */
module StandardMap {

  /** 2π, as the shortest decimal that rounds to the double `2 * Math.PI` evaluates to. */
  const TwoPi: real := 6.283185307179586

  /** A point (q, p) of phase space. */
  datatype Point = Point(q: real, p: real)

  predicate InUnitSquare(pt: Point) {
    0.0 <= pt.q < 1.0 && 0.0 <= pt.p < 1.0
  }

  /** `mod1`: the fractional part `x - floor(x)`, a true modulo that is never negative. */
  function Mod1(x: real): (r: real)
    ensures 0.0 <= r < 1.0
  {
    x - x.Floor as real
  }

  /** `x` and `Mod1(x)` differ by an integer. */
  lemma Mod1DiffersByInteger(x: real)
    ensures x - Mod1(x) == (x - Mod1(x)).Floor as real
  {
  }

  /** Adding an integer does not change `Mod1`. */
  lemma Mod1Periodic(x: real, n: int)
    ensures Mod1(x + n as real) == Mod1(x)
  {
    assert (x + n as real).Floor == x.Floor + n;
  }

  /** `Mod1` is the identity on [0, 1). */
  lemma Mod1Fixes(x: real)
    requires 0.0 <= x < 1.0
    ensures Mod1(x) == x
  {
  }

  /** Reducing an addend first does not change the reduced sum. */
  lemma Mod1Absorbs(x: real, y: real)
    ensures Mod1(Mod1(x) + y) == Mod1(x + y)
  {
    Mod1Periodic(x + y, -x.Floor);
    assert Mod1(x) + y == (x + y) + (-x.Floor) as real;
  }

  /**
   * One step of the map, in the order of phase-space.js:126-127: first
   * `q' = mod1(q + p)`, then `p' = mod1(p - K/2π · sin(2π q'))`, using the NEW q.
   */
  function Step(K: real, sin: real -> real, pt: Point): (r: Point)
    ensures InUnitSquare(r)
    ensures r.q == Mod1(pt.q + pt.p)
  {
    var q' := Mod1(pt.q + pt.p);
    Point(q', Mod1(pt.p - K / TwoPi * sin(TwoPi * q')))
  }

  /** The point reached after `n` steps. */
  function Iterate(K: real, sin: real -> real, start: Point, n: nat): (r: Point)
    ensures n > 0 ==> InUnitSquare(r)
  {
    if n == 0 then start else Step(K, sin, Iterate(K, sin, start, n - 1))
  }

  /**
   * What `computeOrbit(q0, p0, n)` returns: the first `n` points of the orbit,
   * the seed itself first.
   */
  function OrbitOf(K: real, sin: real -> real, start: Point, n: nat): (r: seq<Point>)
    ensures |r| == n
  {
    if n == 0 then [] else OrbitOf(K, sin, start, n - 1) + [Iterate(K, sin, start, n - 1)]
  }

  /** Point i of an orbit is the seed after i steps. */
  lemma {:induction false} OrbitAt(K: real, sin: real -> real, start: Point, n: nat, i: nat)
    requires i < n
    ensures OrbitOf(K, sin, start, n)[i] == Iterate(K, sin, start, i)
  {
    if i < n - 1 {
      OrbitAt(K, sin, start, n - 1, i);
    }
  }

  /**
   * An orbit starts at its seed, unreduced, and every later point lies in
   * [0,1)², whatever the seed and K.
   */
  lemma OrbitInUnitSquare(K: real, sin: real -> real, start: Point, n: nat)
    ensures n > 0 ==> OrbitOf(K, sin, start, n)[0] == start
    ensures forall i :: 1 <= i < n ==> InUnitSquare(OrbitOf(K, sin, start, n)[i])
  {
    if n > 0 {
      OrbitAt(K, sin, start, n, 0);
    }
    forall i | 1 <= i < n
      ensures InUnitSquare(OrbitOf(K, sin, start, n)[i])
    {
      OrbitAt(K, sin, start, n, i);
    }
  }

  /** Each point of an orbit is one step of the map from the point before it. */
  lemma OrbitSteps(K: real, sin: real -> real, start: Point, n: nat, i: nat)
    requires i + 1 < n
    ensures OrbitOf(K, sin, start, n)[i + 1] == Step(K, sin, OrbitOf(K, sin, start, n)[i])
  {
    OrbitAt(K, sin, start, n, i);
    OrbitAt(K, sin, start, n, i + 1);
  }

  /** `n · p`, written as repeated addition so that the rotation proof stays linear. */
  function Drift(n: nat, p: real): real {
    if n == 0 then 0.0 else Drift(n - 1, p) + p
  }

  lemma {:induction false} DriftIsProduct(n: nat, p: real)
    ensures Drift(n, p) == n as real * p
  {
    if n > 0 {
      DriftIsProduct(n - 1, p);
      assert (n - 1) as real * p + p == n as real * p;
    }
  }

  /**
   * With K = 0 the map is a rigid rotation of the torus: p never changes and
   * after n steps q has advanced by n·p (mod 1), n·p written as `Drift(n, p)`.
   */
  lemma {:induction false} ZeroKickIsRotation(sin: real -> real, start: Point, n: nat)
    requires 0.0 <= start.p < 1.0
    requires n >= 1
    ensures Iterate(0.0, sin, start, n) == Point(Mod1(start.q + Drift(n, start.p)), start.p)
  {
    var prev := Iterate(0.0, sin, start, n - 1);
    ZeroKickStep(sin, prev);
    if n == 1 {
      Mod1Fixes(start.p);
      assert start.q + Drift(n, start.p) == start.q + start.p;
    } else {
      ZeroKickIsRotation(sin, start, n - 1);
      var before := start.q + Drift(n - 1, start.p);
      Mod1Absorbs(before, start.p);
      assert before + start.p == start.q + Drift(n, start.p);
    }
  }

  /** One step with K = 0 moves q by p and leaves a reduced p alone. */
  lemma ZeroKickStep(sin: real -> real, pt: Point)
    requires 0.0 <= pt.p < 1.0
    ensures Step(0.0, sin, pt) == Point(Mod1(pt.q + pt.p), pt.p)
  {
    var q' := Mod1(pt.q + pt.p);
    assert 0.0 / TwoPi * sin(TwoPi * q') == 0.0;
    Mod1Fixes(pt.p);
  }

  /** With K = 0 and p0 in [0,1), every point of the orbit keeps p0. */
  lemma ZeroKickKeepsMomentum(sin: real -> real, start: Point, n: nat)
    requires 0.0 <= start.p < 1.0
    ensures forall i :: 0 <= i < n ==> OrbitOf(0.0, sin, start, n)[i].p == start.p
  {
    var orbit := OrbitOf(0.0, sin, start, n);
    forall i | 0 <= i < n
      ensures orbit[i].p == start.p
    {
      OrbitAt(0.0, sin, start, n, i);
      if i >= 1 {
        ZeroKickIsRotation(sin, start, i);
      }
    }
  }

  /** With K = 0, a seed in [0,1) × {0} is a fixed point: its orbit repeats it. */
  lemma ZeroKickFixedPoints(sin: real -> real, start: Point, n: nat)
    requires 0.0 <= start.q < 1.0 && start.p == 0.0
    ensures forall i :: 0 <= i < n ==> OrbitOf(0.0, sin, start, n)[i] == start
  {
    var orbit := OrbitOf(0.0, sin, start, n);
    forall i | 0 <= i < n
      ensures orbit[i] == start
    {
      OrbitAt(0.0, sin, start, n, i);
      if i >= 1 {
        ZeroKickIsRotation(sin, start, i);
        DriftIsProduct(i, 0.0);
        assert start.q + Drift(i, start.p) == start.q;
        Mod1Fixes(start.q);
      }
    }
  }

  /** A canvas position in CSS pixels. */
  datatype Pixel = Pixel(x: real, y: real)

  /** A bounding rectangle as `getBoundingClientRect` reports it. */
  datatype Rect = Rect(left: real, top: real, width: real, height: real)

  /**
   * The mapping of `drawPoint`: `x = q · width`, `y = (1 - p) · height`, so
   * p = 0 is the bottom edge.
   */
  function ToPixel(pt: Point, width: real, height: real): Pixel {
    Pixel(pt.q * width, (1.0 - pt.p) * height)
  }

  /** A point of [0,1)² is drawn inside the canvas, with p = 0 on the bottom edge. */
  lemma PixelInCanvas(pt: Point, width: real, height: real)
    requires InUnitSquare(pt) && width >= 0.0 && height >= 0.0
    ensures var px := ToPixel(pt, width, height);
            0.0 <= px.x <= width && 0.0 <= px.y <= height
    ensures pt.p == 0.0 ==> ToPixel(pt, width, height).y == height
  {
    var px := ToPixel(pt, width, height);
    assert px.x == pt.q * width && px.y == (1.0 - pt.p) * height;
    ScaleWithin(pt.q, width);
    ScaleWithin(1.0 - pt.p, height);
  }

  lemma ScaleWithin(a: real, w: real)
    requires 0.0 <= a <= 1.0 && w >= 0.0
    ensures 0.0 <= a * w <= w
  {
    assert (1.0 - a) * w >= 0.0;
  }

  lemma DivCancel(a: real, h: real)
    requires h != 0.0
    ensures (a * h) / h == a
  {
  }

  /** The mapping of `handleClick`: a client position to a phase-space point. */
  function ClickToPhase(clientX: real, clientY: real, rect: Rect): (pt: Point)
    requires rect.width != 0.0 && rect.height != 0.0
    ensures ToPixel(pt, rect.width, rect.height) == Pixel(clientX - rect.left, clientY - rect.top)
  {
    Point((clientX - rect.left) / rect.width, 1.0 - (clientY - rect.top) / rect.height)
  }

  /** Drawing a point and clicking where it was drawn gives the point back. */
  lemma PhasePixelRoundTrip(pt: Point, rect: Rect)
    requires rect.width != 0.0 && rect.height != 0.0
    ensures var px := ToPixel(pt, rect.width, rect.height);
            ClickToPhase(rect.left + px.x, rect.top + px.y, rect) == pt
  {
    var px := ToPixel(pt, rect.width, rect.height);
    DivCancel(pt.q, rect.width);
    DivCancel(1.0 - pt.p, rect.height);
  }
}
