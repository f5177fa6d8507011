/**
 * The pure part of the exam-ranking animation (`initExamRankings`,
 * assets/js/main.js:182-399): the square grid of candidates, the random
 * choice of the `rank` survivors, the pick of "Bidhi", the non-survivors
 * that are eliminated, the prefix of them revealed at a given progress,
 * the style each dot is drawn in, the easing curve, and the three-phase
 * animation step.
 *
 * Candidates are the indices 0 .. total-1. A JavaScript `Set` is modelled as
 * a sequence without duplicates in insertion order, which is the order
 * `forEach` visits it in.
 */
module ExamRanking {
  import opened Optional
  import opened IntSqrt
  import opened MathRandom
  import opened Shuffle

  // ---------------------------------------------------------------------------
  // The square grid
  // ---------------------------------------------------------------------------

  /** `Math.ceil(Math.sqrt(total))`: the least c with c² >= total. */
  function Cols(total: nat): (c: nat)
    ensures Sq(c) >= total
    ensures c == 0 || Sq(c - 1) < total
  {
    LeastRoot(total, 1)
  }

  /** No narrower square grid holds every candidate. */
  lemma ColsIsLeast(total: nat, c: nat)
    requires Sq(c) >= total
    ensures Cols(total) <= c
  {
    LeastRootIsLeast(total, 1, c);
  }

  /**
   * Every candidate's column `i % cols` and row `floor(i / cols)` lie inside
   * the cols × cols grid.
   */
  lemma CellInGrid(total: nat, i: nat)
    requires i < total
    ensures Cols(total) > 0
    ensures i % Cols(total) < Cols(total) && i / Cols(total) < Cols(total)
  {
    var c := Cols(total);
    var r := i / c;
    assert i == c * r + i % c;
    if r >= c {
      MulLeft(c, c, r);
      SqIsProduct(c);
    }
  }

  function Abs(x: int): nat {
    if x < 0 then -x else x
  }

  /** `Math.floor(cols / 2) * cols + Math.floor(cols / 2)`: the index of the middle cell. */
  function CenterIndex(cols: nat): nat {
    (cols / 2) * cols + cols / 2
  }

  /** `|col - cols/2| + |row - cols/2|`, the Manhattan distance to the grid centre, in reals. */
  function CenterDistance(i: nat, cols: nat): real
    requires cols > 0
  {
    var dc := (i % cols) as real - cols as real / 2.0;
    var dr := (i / cols) as real - cols as real / 2.0;
    (if dc < 0.0 then -dc else dc) + (if dr < 0.0 then -dr else dr)
  }

  /** Twice the distance to the centre, which is always a whole number. */
  function DoubledDistance(i: nat, cols: nat): (d: nat)
    requires cols > 0
    ensures d as real == 2.0 * CenterDistance(i, cols)
  {
    Abs(2 * (i % cols) - cols) + Abs(2 * (i / cols) - cols)
  }

  /** Comparing doubled distances decides exactly what comparing distances decides. */
  lemma DoubledDistanceOrder(a: nat, b: nat, cols: nat)
    requires cols > 0
    ensures CenterDistance(a, cols) < CenterDistance(b, cols) <==> DoubledDistance(a, cols) < DoubledDistance(b, cols)
  {
  }

  // ---------------------------------------------------------------------------
  // The survivors
  // ---------------------------------------------------------------------------

  /** No index occurs twice. */
  predicate Distinct(s: seq<nat>) {
    forall i, j :: 0 <= i < j < |s| ==> s[i] != s[j]
  }

  predicate AllBelow(s: seq<nat>, n: nat) {
    forall i :: 0 <= i < |s| ==> s[i] < n
  }

  /** `set.add(x)` on a set kept in insertion order. */
  function Insert(s: seq<nat>, x: nat): (r: seq<nat>)
    ensures x in r && forall y :: y in r <==> y in s || y == x
    ensures |r| == |s| || |r| == |s| + 1
  {
    if x in s then s else s + [x]
  }

  lemma InsertKeepsDistinct(s: seq<nat>, x: nat, n: nat)
    requires Distinct(s) && AllBelow(s, n) && x < n
    ensures Distinct(Insert(s, x)) && AllBelow(Insert(s, x), n)
  {
  }

  /**
   * The survivor loop of main.js:214-217 run on the draws `draws`, starting
   * from the set `acc`: while fewer than `rank` indices are chosen, add
   * `floor(random · total)`. `None` when the draws run out first.
   */
  function Survivors(rank: nat, total: nat, draws: seq<real>, acc: seq<nat>): Option<seq<nat>>
    requires UnitDraws(draws)
    decreases |draws|
  {
    if |acc| >= rank then Some(acc)
    else if |draws| == 0 then None
    else Survivors(rank, total, draws[1..], Insert(acc, Pick(draws[0], total)))
  }

  /** How many draws the survivor loop consumes before it stops or runs out. */
  function SurvivorDraws(rank: nat, total: nat, draws: seq<real>, acc: seq<nat>): (used: nat)
    requires UnitDraws(draws)
    ensures used <= |draws|
    decreases |draws|
  {
    if |acc| >= rank || |draws| == 0 then 0
    else 1 + SurvivorDraws(rank, total, draws[1..], Insert(acc, Pick(draws[0], total)))
  }

  /** Every index the draws would add to `acc`, were the loop never to stop. */
  function Collect(acc: seq<nat>, total: nat, draws: seq<real>): seq<nat>
    requires UnitDraws(draws)
    decreases |draws|
  {
    if |draws| == 0 then acc else Collect(Insert(acc, Pick(draws[0], total)), total, draws[1..])
  }

  /** Collecting never forgets an index. */
  lemma {:induction false} CollectGrows(acc: seq<nat>, total: nat, draws: seq<real>)
    requires UnitDraws(draws)
    ensures |Collect(acc, total, draws)| >= |acc|
    decreases |draws|
  {
    if |draws| > 0 {
      CollectGrows(Insert(acc, Pick(draws[0], total)), total, draws[1..]);
    }
  }

  /** Collecting from a set of distinct indices below `total` keeps it one. */
  lemma {:induction false} CollectInRange(acc: seq<nat>, total: nat, draws: seq<real>)
    requires UnitDraws(draws) && total > 0
    requires Distinct(acc) && AllBelow(acc, total)
    ensures Distinct(Collect(acc, total, draws)) && AllBelow(Collect(acc, total, draws), total)
    decreases |draws|
  {
    if |draws| > 0 {
      InsertKeepsDistinct(acc, Pick(draws[0], total), total);
      CollectInRange(Insert(acc, Pick(draws[0], total)), total, draws[1..]);
    }
  }

  /**
   * The loop finishes on the given draws exactly when they hold enough
   * different picks to fill `rank` places.
   */
  lemma {:induction false} SurvivorsFinishIff(rank: nat, total: nat, draws: seq<real>, acc: seq<nat>)
    requires UnitDraws(draws)
    ensures Survivors(rank, total, draws, acc).Some? <==> |Collect(acc, total, draws)| >= rank
    decreases |draws|
  {
    CollectGrows(acc, total, draws);
    if |acc| < rank && |draws| > 0 {
      SurvivorsFinishIff(rank, total, draws[1..], Insert(acc, Pick(draws[0], total)));
    }
  }

  /**
   * When the loop finishes, it has chosen exactly `rank` distinct indices,
   * all below `total`.
   */
  lemma {:induction false} SurvivorsShape(rank: nat, total: nat, draws: seq<real>, acc: seq<nat>)
    requires UnitDraws(draws) && total > 0
    requires Distinct(acc) && AllBelow(acc, total) && |acc| <= rank
    ensures Survivors(rank, total, draws, acc).Some? ==>
              var s := Survivors(rank, total, draws, acc).value;
              |s| == rank && Distinct(s) && AllBelow(s, total)
    decreases |draws|
  {
    if |acc| < rank && |draws| > 0 {
      InsertKeepsDistinct(acc, Pick(draws[0], total), total);
      SurvivorsShape(rank, total, draws[1..], Insert(acc, Pick(draws[0], total)));
    }
  }

  /** The members of a sequence, as a set. */
  function Elems(s: seq<nat>): set<nat> {
    set x | x in s
  }

  lemma {:induction false} DistinctElems(s: seq<nat>)
    requires Distinct(s)
    ensures |Elems(s)| == |s|
  {
    if |s| > 0 {
      var init := s[..|s| - 1];
      DistinctElems(init);
      assert Elems(s) == Elems(init) + {s[|s| - 1]};
    }
  }

  /** The indices below n. */
  function Range(n: nat): set<nat> {
    if n == 0 then {} else Range(n - 1) + {n - 1}
  }

  lemma {:induction false} RangeMembers(n: nat)
    ensures forall x :: x in Range(n) <==> 0 <= x < n
  {
    if n > 0 {
      RangeMembers(n - 1);
    }
  }

  lemma {:induction false} RangeSize(n: nat)
    ensures |Range(n)| == n
  {
    if n > 0 {
      RangeSize(n - 1);
      RangeMembers(n - 1);
    }
  }

  lemma SubsetSize(a: set<nat>, b: set<nat>)
    requires a <= b
    ensures |a| <= |b|
  {
    assert b == a + (b - a);
  }

  /** At most `total` distinct indices lie below `total`. */
  lemma DistinctBelowBound(s: seq<nat>, total: nat)
    requires Distinct(s) && AllBelow(s, total)
    ensures |s| <= total
  {
    DistinctElems(s);
    RangeSize(total);
    RangeMembers(total);
    SubsetSize(Elems(s), Range(total));
  }

  /**
   * With `rank > total` the survivor loop never finishes: whatever the draws,
   * the set never grows past `total` indices.
   */
  lemma SurvivorsNeedRankAtMostTotal(rank: nat, total: nat, draws: seq<real>)
    requires UnitDraws(draws) && total > 0 && rank > total
    ensures Survivors(rank, total, draws, []).None?
  {
    SurvivorsFinishIff(rank, total, draws, []);
    CollectInRange([], total, draws);
    DistinctBelowBound(Collect([], total, draws), total);
  }

  /** With no candidates every pick is 0, so one survivor is found at once, outside the grid. */
  lemma EmptyGridStillFinishes()
    ensures Survivors(1, 0, [0.5], []) == Some([0])
  {
    assert Pick(0.5, 0) == 0;
    assert Insert([], 0) == [0];
    assert [0.5][1..] == [];
  }


  // ---------------------------------------------------------------------------
  // Bidhi
  // ---------------------------------------------------------------------------

  /**
   * `b` is what the search of main.js:220-232 leaves in `bidhiIndex`: the
   * centre cell when there are no survivors, otherwise a survivor at the
   * least distance to the centre and the first such one in insertion order.
   */
  predicate IsBidhi(survivors: seq<nat>, cols: nat, b: nat)
    requires cols > 0
  {
    if |survivors| == 0 then b == CenterIndex(cols)
    else exists k :: 0 <= k < |survivors| && survivors[k] == b && FirstNearestAt(survivors, cols, k)
  }

  /** Position k holds a survivor no farther than any other and nearer than every earlier one. */
  predicate FirstNearestAt(survivors: seq<nat>, cols: nat, k: nat)
    requires cols > 0 && k < |survivors|
  {
    (forall j :: 0 <= j < |survivors| ==> DoubledDistance(survivors[k], cols) <= DoubledDistance(survivors[j], cols)) &&
    (forall j :: 0 <= j < k ==> DoubledDistance(survivors[j], cols) > DoubledDistance(survivors[k], cols))
  }

  /** With at least one survivor, Bidhi is one of them. */
  lemma BidhiIsSurvivor(survivors: seq<nat>, cols: nat, b: nat)
    requires cols > 0 && IsBidhi(survivors, cols, b)
    ensures |survivors| > 0 ==> b in survivors
  {
    if |survivors| > 0 {
      var k :| 0 <= k < |survivors| && survivors[k] == b && FirstNearestAt(survivors, cols, k);
    }
  }

  /** The description pins Bidhi down: at most one index meets it. */
  lemma BidhiUnique(survivors: seq<nat>, cols: nat, b1: nat, b2: nat)
    requires cols > 0
    requires IsBidhi(survivors, cols, b1) && IsBidhi(survivors, cols, b2)
    ensures b1 == b2
  {
    if |survivors| > 0 {
      var k1 :| 0 <= k1 < |survivors| && survivors[k1] == b1 && FirstNearestAt(survivors, cols, k1);
      var k2 :| 0 <= k2 < |survivors| && survivors[k2] == b2 && FirstNearestAt(survivors, cols, k2);
    }
  }

  /**
   * With no survivors Bidhi stays the centre cell, which need not be a
   * candidate at all: for 2 candidates the grid is 2 × 2 and the centre is 3.
   */
  lemma CenterMayLieOutside()
    ensures Cols(2) == 2 && CenterIndex(Cols(2)) == 3
    ensures IsBidhi([], Cols(2), 3)
  {
    assert Sq(1) == 1 && Sq(2) == 4;
  }

  // ---------------------------------------------------------------------------
  // Elimination order and reveal
  // ---------------------------------------------------------------------------

  /**
   * `[...Array(n).keys()].filter(i => !survivors.has(i))`: the indices
   * below n that are not survivors, in increasing order.
   */
  function NonSurvivors(n: nat, survivors: seq<nat>): seq<nat>
  {
    if n == 0 then []
    else if n - 1 in survivors then NonSurvivors(n - 1, survivors)
    else NonSurvivors(n - 1, survivors) + [n - 1]
  }

  /** The filter keeps exactly the indices below n that are not survivors. */
  lemma {:induction false} NonSurvivorsMembers(n: nat, survivors: seq<nat>)
    ensures forall x :: x in NonSurvivors(n, survivors) <==> 0 <= x < n && x !in survivors
  {
    if n > 0 {
      NonSurvivorsMembers(n - 1, survivors);
    }
  }

  /** The filtered indices keep the increasing order of `keys()`, so none repeats. */
  lemma {:induction false} NonSurvivorsDistinct(n: nat, survivors: seq<nat>)
    ensures Distinct(NonSurvivors(n, survivors))
  {
    if n > 0 {
      NonSurvivorsDistinct(n - 1, survivors);
      NonSurvivorsMembers(n - 1, survivors);
    }
  }

  /** The survivors below n, as a set. */
  function SurvivorsBelow(survivors: seq<nat>, n: nat): (r: set<nat>)
    ensures forall x :: x in r <==> x in survivors && x < n
  {
    if n == 0 then {}
    else if n - 1 in survivors then SurvivorsBelow(survivors, n - 1) + {n - 1}
    else SurvivorsBelow(survivors, n - 1)
  }

  lemma {:induction false} NonSurvivorsCountBelow(n: nat, survivors: seq<nat>)
    ensures |NonSurvivors(n, survivors)| + |SurvivorsBelow(survivors, n)| == n
  {
    if n > 0 {
      NonSurvivorsCountBelow(n - 1, survivors);
      var below := SurvivorsBelow(survivors, n - 1);
      if n - 1 in survivors {
        assert n - 1 !in below;
        assert SurvivorsBelow(survivors, n) == below + {n - 1};
      } else {
        assert SurvivorsBelow(survivors, n) == below;
        assert |NonSurvivors(n, survivors)| == |NonSurvivors(n - 1, survivors)| + 1;
      }
    }
  }

  /** There are `total - rank` non-survivors when the `rank` survivors are distinct candidates. */
  lemma NonSurvivorsCount(total: nat, survivors: seq<nat>)
    requires Distinct(survivors) && AllBelow(survivors, total)
    ensures |NonSurvivors(total, survivors)| == total - |survivors|
  {
    NonSurvivorsCountBelow(total, survivors);
    assert SurvivorsBelow(survivors, total) == Elems(survivors);
    DistinctElems(survivors);
  }

  /** A sequence without duplicates counts each of its elements once. */
  lemma {:induction false} DistinctOnce(s: seq<nat>, x: nat)
    requires Distinct(s)
    ensures multiset(s)[x] <= 1
  {
    if |s| > 0 {
      var init := s[..|s| - 1];
      assert s == init + [s[|s| - 1]];
      DistinctOnce(init, x);
    }
  }

  /** An element at two positions is counted at least twice. */
  lemma TwiceCounted(a: seq<nat>, i: nat, j: nat)
    requires i < j < |a| && a[i] == a[j]
    ensures multiset(a)[a[i]] >= 2
  {
    assert a == a[..j] + a[j..];
    assert a[i] in a[..j] && a[j] in a[j..];
    assert multiset(a)[a[i]] == multiset(a[..j])[a[i]] + multiset(a[j..])[a[i]];
  }

  /** A permutation of a sequence without duplicates has none either. */
  lemma PermutationDistinct(a: seq<nat>, b: seq<nat>)
    requires multiset(a) == multiset(b) && Distinct(b)
    ensures Distinct(a)
  {
    forall i, j | 0 <= i < j < |a|
      ensures a[i] != a[j]
    {
      if a[i] == a[j] {
        TwiceCounted(a, i, j);
        DistinctOnce(b, a[i]);
      }
    }
  }

  /** What the elimination order is: the non-survivors, each once, in some order. */
  predicate IsEliminationOrder(order: seq<nat>, total: nat, survivors: seq<nat>) {
    multiset(order) == multiset(NonSurvivors(total, survivors))
  }

  /**
   * Any shuffle of the non-survivors has `total - rank` entries, no
   * duplicates, and holds exactly the candidates that are not survivors.
   */
  lemma EliminationOrderShape(order: seq<nat>, total: nat, survivors: seq<nat>)
    requires Distinct(survivors) && AllBelow(survivors, total)
    requires IsEliminationOrder(order, total, survivors)
    ensures |order| == total - |survivors|
    ensures Distinct(order)
    ensures forall x :: x in order <==> 0 <= x < total && x !in survivors
  {
    var ns := NonSurvivors(total, survivors);
    NonSurvivorsCount(total, survivors);
    NonSurvivorsDistinct(total, survivors);
    NonSurvivorsMembers(total, survivors);
    PermutationDistinct(order, ns);
    assert |order| == |multiset(order)| == |multiset(ns)| == |ns|;
    forall x
      ensures x in order <==> 0 <= x < total && x !in survivors
    {
      assert x in order <==> x in multiset(order);
      assert x in ns <==> x in multiset(ns);
    }
  }

  /** `Math.floor(eliminationProgress * eliminationOrder.length)`. */
  function EliminatedCount(progress: real, len: nat): (c: nat)
    requires 0.0 <= progress <= 1.0
    ensures c <= len
    ensures progress == 1.0 ==> c == len
  {
    ScaleMonotone(0.0, progress, len as real);
    ScaleMonotone(progress, 1.0, len as real);
    FloorMonotone(progress * len as real, len as real);
    assert (len as real).Floor == len;
    (progress * len as real).Floor
  }

  /** `new Set(eliminationOrder.slice(0, eliminatedCount))`. */
  function EliminatedSet(order: seq<nat>, progress: real): set<nat>
    requires 0.0 <= progress <= 1.0
  {
    Elems(order[..EliminatedCount(progress, |order|)])
  }

  /** More progress never un-eliminates anyone. */
  lemma EliminatedGrows(order: seq<nat>, p1: real, p2: real)
    requires 0.0 <= p1 <= p2 <= 1.0
    ensures EliminatedCount(p1, |order|) <= EliminatedCount(p2, |order|)
    ensures EliminatedSet(order, p1) <= EliminatedSet(order, p2)
  {
    var len := |order| as real;
    ScaleMonotone(p1, p2, len);
    FloorMonotone(p1 * len, p2 * len);
    PrefixElems(order, EliminatedCount(p1, |order|), EliminatedCount(p2, |order|));
  }

  lemma ScaleMonotone(a: real, b: real, c: real)
    requires a <= b && 0.0 <= c
    ensures a * c <= b * c
  {
  }

  lemma FloorMonotone(x: real, y: real)
    requires x <= y
    ensures x.Floor <= y.Floor
  {
    assert x.Floor as real <= x && y < y.Floor as real + 1.0;
  }

  lemma PrefixElems(s: seq<nat>, c1: nat, c2: nat)
    requires c1 <= c2 <= |s|
    ensures Elems(s[..c1]) <= Elems(s[..c2])
  {
    assert forall x :: x in s[..c1] ==> x in s[..c2] by {
      assert s[..c1] == s[..c2][..c1];
    }
  }

  /**
   * Only non-survivor candidates are ever eliminated, and at progress 1
   * every one of them is.
   */
  lemma EliminatedAreNonSurvivors(order: seq<nat>, total: nat, survivors: seq<nat>, progress: real)
    requires Distinct(survivors) && AllBelow(survivors, total)
    requires IsEliminationOrder(order, total, survivors)
    requires 0.0 <= progress <= 1.0
    ensures forall x :: x in EliminatedSet(order, progress) ==> x < total && x !in survivors
    ensures progress == 1.0 ==> forall x :: x in EliminatedSet(order, progress) <==> 0 <= x < total && x !in survivors
  {
    EliminationOrderShape(order, total, survivors);
    var c := EliminatedCount(progress, |order|);
    assert forall x :: x in order[..c] ==> x in order;
    if progress == 1.0 {
      assert order[..c] == order;
    }
  }

  // ---------------------------------------------------------------------------
  // Drawing the dots
  // ---------------------------------------------------------------------------

  /** The four ways `drawDots` can paint a candidate. */
  datatype DotStyle = Eliminated | BidhiGlow | Survivor | Remaining

  /**
   * The branch `drawDots` takes for index i (main.js:318-348), tested in
   * this order: eliminated, Bidhi glowing late in the elimination,
   * survivor, not yet eliminated.
   */
  function DotStyleOf(i: nat, eliminated: set<nat>, bidhi: nat, showGlow: bool,
                      progress: real, survivors: seq<nat>): DotStyle
  {
    if i in eliminated then Eliminated
    else if i == bidhi && showGlow && progress > 0.8 then BidhiGlow
    else if i in survivors then Survivor
    else Remaining
  }

  /** The style of every candidate in one call of `drawDots`, index by index. */
  function DotStyles(total: nat, eliminated: set<nat>, bidhi: nat, showGlow: bool,
                     progress: real, survivors: seq<nat>): (styles: seq<DotStyle>)
    ensures |styles| == total
  {
    seq(total, i requires 0 <= i => DotStyleOf(i, eliminated, bidhi, showGlow, progress, survivors))
  }

  /**
   * Over a whole run of the reveal: a survivor is never painted eliminated,
   * Bidhi (a survivor) glows once progress passes 0.8 while the glow is
   * shown, and at progress 1 exactly the non-survivors are painted
   * eliminated.
   */
  lemma DotStylesDuringReveal(order: seq<nat>, total: nat, survivors: seq<nat>, bidhi: nat,
                              showGlow: bool, progress: real, i: nat)
    requires Distinct(survivors) && AllBelow(survivors, total)
    requires IsEliminationOrder(order, total, survivors)
    requires 0.0 <= progress <= 1.0
    ensures var style := DotStyleOf(i, EliminatedSet(order, progress), bidhi, showGlow, progress, survivors);
            (i in survivors ==> style != Eliminated) &&
            (bidhi in survivors && showGlow && progress > 0.8 && i == bidhi ==> style == BidhiGlow) &&
            (progress == 1.0 && i < total ==> (style == Eliminated <==> i !in survivors))
  {
    EliminatedAreNonSurvivors(order, total, survivors, progress);
  }

  // ---------------------------------------------------------------------------
  // Easing
  // ---------------------------------------------------------------------------

  /** `1 - Math.pow(1 - t, 3)`. */
  function EaseOutCubic(t: real): real {
    1.0 - (1.0 - t) * (1.0 - t) * (1.0 - t)
  }

  lemma CubeMonotone(a: real, b: real)
    requires 0.0 <= a <= b
    ensures a * a * a <= b * b * b
  {
    assert a * a <= a * b <= b * b;
    assert a * a * a <= b * b * a <= b * b * b;
  }

  /** The easing fixes 0 and 1, stays in [0,1] on [0,1], and never decreases there. */
  lemma EaseOutCubicShape(s: real, t: real)
    requires 0.0 <= s <= t <= 1.0
    ensures EaseOutCubic(0.0) == 0.0 && EaseOutCubic(1.0) == 1.0
    ensures 0.0 <= EaseOutCubic(s) <= EaseOutCubic(t) <= 1.0
  {
    CubeMonotone(1.0 - t, 1.0 - s);
    CubeMonotone(0.0, 1.0 - t);
    CubeMonotone(1.0 - s, 1.0);
  }

  // ---------------------------------------------------------------------------
  // The animation step
  // ---------------------------------------------------------------------------

  /** The closure variables `animate` updates: phase 0 elimination, 1 zoom, 2 done. */
  datatype AnimState = AnimState(phase: nat, elimination: real, zoom: real, pulse: real)

  const Start: AnimState := AnimState(0, 0.0, 0.0, 0.0)

  function MinReal(a: real, b: real): real {
    if a <= b then a else b
  }

  /** One call of `animate` once the animation has started (main.js:360-377). */
  function Tick(s: AnimState): AnimState {
    if s.phase == 0 then
      var e := MinReal(1.0, s.elimination + 0.025);
      s.(elimination := e, phase := if e >= 1.0 then 1 else 0)
    else if s.phase == 1 then
      var z := MinReal(1.0, s.zoom + 0.03);
      s.(zoom := z, pulse := s.pulse + 0.1, phase := if z >= 1.0 then 2 else 1)
    else
      s.(pulse := s.pulse + 0.05)
  }

  /** The states the animation can be in. */
  predicate Reachable(s: AnimState) {
    s.phase <= 2 &&
    0.0 <= s.elimination <= 1.0 && 0.0 <= s.zoom <= 1.0 &&
    (s.phase == 0 ==> s.elimination < 1.0 && s.zoom == 0.0) &&
    (s.phase >= 1 ==> s.elimination == 1.0) &&
    (s.phase == 1 ==> s.zoom < 1.0) &&
    (s.phase == 2 ==> s.zoom == 1.0)
  }

  /**
   * One step keeps the state reachable, moves the phase forward by at most
   * one, and never lowers either progress value.
   */
  lemma TickStep(s: AnimState)
    requires Reachable(s)
    ensures Reachable(Tick(s))
    ensures Tick(s).phase == s.phase || Tick(s).phase == s.phase + 1
    ensures s.elimination <= Tick(s).elimination && s.zoom <= Tick(s).zoom
  {
  }

  /** n calls of `animate`. */
  function Ticks(s: AnimState, n: nat): AnimState {
    if n == 0 then s else Tick(Ticks(s, n - 1))
  }

  /** Over any number of steps the phase only moves 0 → 1 → 2 and progress only grows. */
  lemma {:induction false} TicksMonotone(s: AnimState, n: nat)
    requires Reachable(s)
    ensures Reachable(Ticks(s, n))
    ensures s.phase <= Ticks(s, n).phase
    ensures s.elimination <= Ticks(s, n).elimination && s.zoom <= Ticks(s, n).zoom
  {
    if n > 0 {
      TicksMonotone(s, n - 1);
      TickStep(Ticks(s, n - 1));
    }
  }

  /** The first 39 frames each eliminate another 2.5%. */
  lemma {:induction false} EliminationFrames(n: nat)
    requires n <= 39
    ensures Ticks(Start, n) == AnimState(0, n as real * 0.025, 0.0, 0.0)
  {
    if n > 0 {
      EliminationFrames(n - 1);
    }
  }

  /** Frames 41 to 73 each zoom another 3% and advance the pulse by 0.1. */
  lemma {:induction false} ZoomFrames(m: nat)
    requires m <= 33
    ensures Ticks(Start, 40 + m) == AnimState(1, 1.0, m as real * 0.03, m as real * 0.1)
  {
    if m == 0 {
      EliminationFrames(39);
    } else {
      ZoomFrames(m - 1);
    }
  }

  /** Elimination takes exactly 40 frames and the zoom 34 more; then the pulse runs on. */
  lemma PhaseLengths()
    ensures Ticks(Start, 39).phase == 0 && Ticks(Start, 40).phase == 1
    ensures Ticks(Start, 73).phase == 1 && Ticks(Start, 74) == AnimState(2, 1.0, 1.0, 3.4)
  {
    EliminationFrames(39);
    ZoomFrames(0);
    ZoomFrames(33);
  }
}
