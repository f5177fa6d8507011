/**
 * `shuffleArray` (assets/js/main.js:401-407): the in-place Durstenfeld
 * variant of the Fisher–Yates shuffle. `Math.random()` is replaced by a
 * sequence of draws in [0, 1), consumed in the order the loop asks for them.
 */
module Shuffle {
  import opened MathRandom

  /** `Math.floor(r * n)`: a uniform draw turned into an index below n. */
  function Pick(r: real, n: nat): (j: nat)
    requires 0.0 <= r < 1.0
    ensures n > 0 ==> j < n
    ensures n == 0 ==> j == 0
  {
    if n == 0 then 0
    else
      assert 0.0 <= r * n as real < n as real by {
        assert (1.0 - r) * n as real > 0.0;
      }
      (r * n as real).Floor
  }

  /** Exchanging the elements at i and j. */
  function Swap<T>(s: seq<T>, i: nat, j: nat): (r: seq<T>)
    requires i < |s| && j < |s|
    ensures |r| == |s|
  {
    s[i := s[j]][j := s[i]]
  }

  /** A swap only reorders: the multiset of elements is unchanged. */
  lemma SwapPermutes<T>(s: seq<T>, i: nat, j: nat)
    requires i < |s| && j < |s|
    ensures multiset(Swap(s, i, j)) == multiset(s)
  {
    var t := s[i := s[j]];
    assert multiset(t) == multiset(s) - multiset{s[i]} + multiset{s[j]};
    assert multiset(t[j := s[i]]) == multiset(t) - multiset{t[j]} + multiset{s[i]};
  }

  /** How many draws a shuffle of n elements consumes: one per i from n-1 down to 1. */
  function DrawsFor(n: nat): nat {
    if n == 0 then 0 else n - 1
  }

  /**
   * The swaps for i, i-1, …, 1 applied to `s`: step i exchanges s[i] with
   * s[Pick(r, i + 1)], where r is draw number |s| - 1 - i.
   */
  function ShuffleFrom<T>(s: seq<T>, draws: seq<real>, i: nat): (r: seq<T>)
    requires i < |s| && |draws| >= |s| - 1 && UnitDraws(draws)
    ensures |r| == |s|
    decreases i
  {
    if i == 0 then s
    else ShuffleFrom(Swap(s, i, Pick(draws[|s| - 1 - i], i + 1)), draws, i - 1)
  }

  /** What `shuffleArray` leaves in the array, given the draws it consumes. */
  function FisherYates<T>(s: seq<T>, draws: seq<real>): (r: seq<T>)
    requires |draws| >= DrawsFor(|s|) && UnitDraws(draws)
    ensures |r| == |s|
  {
    if |s| == 0 then s else ShuffleFrom(s, draws, |s| - 1)
  }

  lemma {:induction false} ShuffleFromPermutes<T>(s: seq<T>, draws: seq<real>, i: nat)
    requires i < |s| && |draws| >= |s| - 1 && UnitDraws(draws)
    ensures multiset(ShuffleFrom(s, draws, i)) == multiset(s)
    decreases i
  {
    if i > 0 {
      var j := Pick(draws[|s| - 1 - i], i + 1);
      var t := Swap(s, i, j);
      assert ShuffleFrom(s, draws, i) == ShuffleFrom(t, draws, i - 1);
      SwapPermutes(s, i, j);
      ShuffleFromPermutes(t, draws, i - 1);
    }
  }

  /** Whatever the draws, Fisher–Yates returns a permutation of its input. */
  lemma FisherYatesPermutes<T>(s: seq<T>, draws: seq<real>)
    requires |draws| >= DrawsFor(|s|) && UnitDraws(draws)
    ensures multiset(FisherYates(s, draws)) == multiset(s)
  {
    if |s| > 0 {
      ShuffleFromPermutes(s, draws, |s| - 1);
    }
  }

  /**
   * `shuffleArray(array)`: for i from length-1 down to 1, swap `array[i]`
   * with `array[j]`, `j = floor(random · (i + 1))`, so that j <= i. The
   * array is permuted in place; no new array is made.
   */
  method ShuffleArray(a: array<nat>, draws: seq<real>)
    requires |draws| >= DrawsFor(a.Length) && UnitDraws(draws)
    modifies a
    ensures a[..] == FisherYates(old(a[..]), draws)
    ensures multiset(a[..]) == multiset(old(a[..]))
  {
    if a.Length == 0 {
      return;
    }
    var i := a.Length - 1;
    while i > 0
      invariant 0 <= i < a.Length
      invariant ShuffleFrom(a[..], draws, i) == FisherYates(old(a[..]), draws)
      decreases i
    {
      var j := Pick(draws[a.Length - 1 - i], i + 1);
      ghost var before := a[..];
      assert ShuffleFrom(before, draws, i) == ShuffleFrom(Swap(before, i, j), draws, i - 1);
      a[i], a[j] := a[j], a[i];
      assert a[..] == Swap(before, i, j);
      i := i - 1;
    }
    FisherYatesPermutes(old(a[..]), draws);
  }
}
