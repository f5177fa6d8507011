/**
 * The stateful part of `initExamRankings` (assets/js/main.js:182-399): the
 * loops that choose the survivors and Bidhi, the shuffled elimination
 * order, and the animation whose closure variables `animate` and the
 * intersection observer update in place.
 *
 * `Math.random()` is a sequence of draws in [0, 1). The survivor loop takes
 * them first, in order; `shuffleArray` takes the rest.
 */
module RankingCanvas {
  import opened Optional
  import opened MathRandom
  import opened Shuffle
  import opened ExamRanking

  /**
   * The loop of main.js:214-217: draw `floor(random · total)` and add it to
   * the set until the set holds `rank` indices. When the draws run out
   * first, the loop has not finished and the result is `None`.
   */
  method ChooseSurvivors(rank: nat, total: nat, draws: seq<real>) returns (survivors: Option<seq<nat>>, used: nat)
    requires UnitDraws(draws) && total > 0
    ensures survivors == Survivors(rank, total, draws, [])
    ensures used == SurvivorDraws(rank, total, draws, [])
    ensures survivors.Some? ==> |survivors.value| == rank
    ensures survivors.Some? ==> Distinct(survivors.value) && AllBelow(survivors.value, total)
  {
    var chosen: seq<nat> := [];
    var k := 0;
    while |chosen| < rank && k < |draws|
      invariant 0 <= k <= |draws|
      invariant Distinct(chosen) && AllBelow(chosen, total)
      invariant Survivors(rank, total, draws[k..], chosen) == Survivors(rank, total, draws, [])
      invariant k + SurvivorDraws(rank, total, draws[k..], chosen) == SurvivorDraws(rank, total, draws, [])
      decreases |draws| - k
    {
      assert draws[k..][1..] == draws[k + 1..];
      var pick := Pick(draws[k], total);
      InsertKeepsDistinct(chosen, pick, total);
      chosen := Insert(chosen, pick);
      k := k + 1;
    }
    used := k;
    if |chosen| >= rank {
      survivors := Some(chosen);
    } else {
      survivors := None;
    }
    SurvivorsShape(rank, total, draws, []);
  }

  /**
   * The search of main.js:220-232: start from the centre cell and an
   * infinite best distance, and take each survivor, in insertion order, that
   * is strictly nearer than the best so far. Distances are compared doubled,
   * which decides the same way (`DoubledDistanceOrder`).
   */
  method FindBidhi(survivors: seq<nat>, cols: nat) returns (bidhi: nat)
    requires cols > 0
    ensures IsBidhi(survivors, cols, bidhi)
    ensures |survivors| > 0 ==> bidhi in survivors
    ensures |survivors| == 0 ==> bidhi == CenterIndex(cols)
  {
    bidhi := CenterIndex(cols);
    var minDist: Option<nat> := None;
    ghost var at := 0;
    for k := 0 to |survivors|
      invariant minDist.None? <==> k == 0
      invariant k == 0 ==> bidhi == CenterIndex(cols)
      invariant k > 0 ==> at < k && survivors[at] == bidhi && minDist == Some(DoubledDistance(bidhi, cols))
      invariant k > 0 ==> forall j :: 0 <= j < k ==> DoubledDistance(bidhi, cols) <= DoubledDistance(survivors[j], cols)
      invariant k > 0 ==> forall j :: 0 <= j < at ==> DoubledDistance(survivors[j], cols) > DoubledDistance(bidhi, cols)
    {
      var dist := DoubledDistance(survivors[k], cols);
      if minDist.None? || dist < minDist.value {
        minDist := Some(dist);
        bidhi := survivors[k];
        at := k;
      }
    }
    if |survivors| > 0 {
      assert FirstNearestAt(survivors, cols, at);
    }
  }

  /**
   * `shuffleArray([...Array(total).keys()].filter(i => !survivors.has(i)))`
   * (main.js:246): the non-survivors, shuffled in an array of their own.
   */
  method MakeEliminationOrder(total: nat, survivors: seq<nat>, draws: seq<real>) returns (order: seq<nat>)
    requires |draws| >= DrawsFor(|NonSurvivors(total, survivors)|) && UnitDraws(draws)
    ensures order == FisherYates(NonSurvivors(total, survivors), draws)
    ensures IsEliminationOrder(order, total, survivors)
  {
    var keep := NonSurvivors(total, survivors);
    var a := new nat[|keep|](i requires 0 <= i < |keep| => keep[i]);
    assert a[..] == keep;
    ShuffleArray(a, draws);
    order := a[..];
  }

  /** One exam-ranking canvas: the grid, its survivors and the animation's closure variables. */
  class RankingAnimation {
    const total: nat
    const rank: nat
    const cols: nat
    const survivors: seq<nat>
    const bidhiIndex: nat
    const eliminationOrder: seq<nat>

    var animationStarted: bool
    var phase: nat
    var eliminationProgress: real
    var zoomProgress: real
    var pulsePhase: real

    /** How many times `requestAnimationFrame(animate)` has been called. */
    var frameRequests: nat
    /** The dot styles of every `draw()` so far, oldest first. */
    ghost var frames: seq<seq<DotStyle>>

    /** What the setup of main.js:208-246 guarantees about the constant part. */
    ghost predicate Layout()
    {
      total > 0 && cols == Cols(total) && cols > 0 &&
      |survivors| == rank && Distinct(survivors) && AllBelow(survivors, total) &&
      IsBidhi(survivors, cols, bidhiIndex) &&
      IsEliminationOrder(eliminationOrder, total, survivors)
    }

    function State(): AnimState
      reads this
    {
      AnimState(phase, eliminationProgress, zoomProgress, pulsePhase)
    }

    ghost predicate Valid()
      reads this
    {
      Layout() && Reachable(State()) && (!animationStarted ==> State() == Start)
    }

    /** The dots `draw()` paints in the current state (main.js:251-255). */
    function Frame(): seq<DotStyle>
      reads this
      requires 0.0 <= eliminationProgress <= 1.0
    {
      DotStyles(total, EliminatedSet(eliminationOrder, eliminationProgress), bidhiIndex,
                zoomProgress == 0.0, eliminationProgress, survivors)
    }

    /**
     * What every frame shows: survivors are never painted eliminated, Bidhi
     * glows late in the elimination, and from the zoom phase on exactly the
     * non-survivors are painted eliminated.
     */
    lemma FrameShows(i: nat)
      requires Valid() && i < total
      ensures i in survivors ==> Frame()[i] != Eliminated
      ensures rank > 0 && i == bidhiIndex && zoomProgress == 0.0 && eliminationProgress > 0.8 ==> Frame()[i] == BidhiGlow
      ensures phase >= 1 ==> (Frame()[i] == Eliminated <==> i !in survivors)
    {
      BidhiIsSurvivor(survivors, cols, bidhiIndex);
      var eliminated := EliminatedSet(eliminationOrder, eliminationProgress);
      var showGlow := zoomProgress == 0.0;
      assert Frame()[i] == DotStyleOf(i, eliminated, bidhiIndex, showGlow, eliminationProgress, survivors);
      DotStylesDuringReveal(eliminationOrder, total, survivors, bidhiIndex, showGlow, eliminationProgress, i);
    }

    constructor(total: nat, rank: nat, cols: nat, survivors: seq<nat>, bidhiIndex: nat, eliminationOrder: seq<nat>)
      requires total > 0 && cols == Cols(total) && cols > 0
      requires |survivors| == rank && Distinct(survivors) && AllBelow(survivors, total)
      requires IsBidhi(survivors, cols, bidhiIndex)
      requires IsEliminationOrder(eliminationOrder, total, survivors)
      ensures Valid() && !animationStarted && frameRequests == 0 && frames == []
      ensures this.total == total && this.rank == rank && this.survivors == survivors
      ensures this.bidhiIndex == bidhiIndex && this.eliminationOrder == eliminationOrder
    {
      this.total := total;
      this.rank := rank;
      this.cols := cols;
      this.survivors := survivors;
      this.bidhiIndex := bidhiIndex;
      this.eliminationOrder := eliminationOrder;
      animationStarted := false;
      phase := 0;
      eliminationProgress := 0.0;
      zoomProgress := 0.0;
      pulsePhase := 0.0;
      frameRequests := 0;
      frames := [];
    }

    /** `draw()`, reduced to the style of every dot. */
    method Draw()
      requires Valid()
      modifies this`frames
      ensures frames == old(frames) + [Frame()]
    {
      frames := frames + [Frame()];
    }

    /**
     * The intersection observer's callback for one entry (main.js:388-394):
     * the first time the canvas is visible the animation starts and a frame
     * is requested; after that it has no effect.
     */
    method OnIntersect(isIntersecting: bool)
      requires Valid()
      modifies this
      ensures Valid()
      ensures animationStarted == (old(animationStarted) || isIntersecting)
      ensures frameRequests == old(frameRequests) + (if isIntersecting && !old(animationStarted) then 1 else 0)
      ensures State() == old(State()) && frames == old(frames)
    {
      if isIntersecting && !animationStarted {
        animationStarted := true;
        frameRequests := frameRequests + 1;
      }
    }

    /**
     * `animate()` (main.js:356-381): nothing at all before the animation has
     * started; afterwards one step of the phase machine, one `draw()`, and
     * a request for the next frame.
     */
    method Animate()
      requires Valid()
      modifies this
      ensures Valid()
      ensures !old(animationStarted) ==> unchanged(this)
      ensures old(animationStarted) ==>
                animationStarted && State() == Tick(old(State())) &&
                frames == old(frames) + [Frame()] && frameRequests == old(frameRequests) + 1
    {
      if !animationStarted {
        return;
      }
      TickStep(State());
      if phase == 0 {
        eliminationProgress := MinReal(1.0, eliminationProgress + 0.025);
        if eliminationProgress >= 1.0 {
          phase := 1;
        }
      } else if phase == 1 {
        zoomProgress := MinReal(1.0, zoomProgress + 0.03);
        pulsePhase := pulsePhase + 0.1;
        if zoomProgress >= 1.0 {
          phase := 2;
        }
      } else {
        pulsePhase := pulsePhase + 0.05;
      }
      Draw();
      frameRequests := frameRequests + 1;
    }
  }

  /**
   * The setup of one ranking (main.js:208-246 and the first `draw()` of
   * main.js:384): grid, survivors, Bidhi, elimination order, initial state.
   * `None` when the draws end before the survivor loop or the shuffle
   * has what it needs.
   */
  method InitExamRanking(rank: nat, total: nat, draws: seq<real>) returns (r: Option<RankingAnimation>)
    requires total > 0 && UnitDraws(draws)
    ensures r.Some? <==>
              Survivors(rank, total, draws, []).Some? &&
              |draws| - SurvivorDraws(rank, total, draws, []) >=
                DrawsFor(|NonSurvivors(total, Survivors(rank, total, draws, []).value)|)
    ensures r.Some? ==>
              var canvas := r.value;
              fresh(canvas) && canvas.Valid() && !canvas.animationStarted &&
              canvas.State() == Start && canvas.eliminationProgress == 0.0 &&
              canvas.total == total && canvas.rank == rank &&
              canvas.survivors == Survivors(rank, total, draws, []).value &&
              canvas.eliminationOrder ==
                FisherYates(NonSurvivors(total, canvas.survivors), draws[SurvivorDraws(rank, total, draws, [])..]) &&
              canvas.frames == [canvas.Frame()]
  {
    var chosen, used := ChooseSurvivors(rank, total, draws);
    if chosen.None? {
      return None;
    }
    var survivors := chosen.value;
    var cols := Cols(total);
    CellInGrid(total, 0);
    var bidhi := FindBidhi(survivors, cols);
    if |draws| - used < DrawsFor(|NonSurvivors(total, survivors)|) {
      return None;
    }
    var order := MakeEliminationOrder(total, survivors, draws[used..]);
    var canvas := new RankingAnimation(total, rank, cols, survivors, bidhi, order);
    canvas.Draw();
    r := Some(canvas);
  }
}
