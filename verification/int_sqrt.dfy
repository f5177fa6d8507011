/**
 * Integer ceiling square roots, as both engines compute them with
 * `Math.ceil(Math.sqrt(x))`. The floating-point square root is replaced by
 * an exact search for the least `c` with `den * c² >= num`, i.e.
 * `c = ceil(sqrt(num / den))`.
 */
module IntSqrt {

  /**
   * c², written as the sum of the first c odd numbers so that reasoning
   * about it stays linear until `SqIsProduct` is called.
   */
  function Sq(c: nat): nat {
    if c == 0 then 0 else Sq(c - 1) + 2 * c - 1
  }

  lemma {:induction false} SqIsProduct(c: nat)
    ensures Sq(c) == c * c
  {
    if c > 0 {
      SqIsProduct(c - 1);
      assert (c - 1) * (c - 1) == c * c - 2 * c + 1;
    }
  }

  lemma MulLeft(k: nat, a: nat, b: nat)
    requires a <= b
    ensures k * a <= k * b
  {
  }

  /** Squaring is monotone on naturals. */
  lemma {:induction false} SquareMonotone(a: nat, b: nat)
    requires a <= b
    ensures Sq(a) <= Sq(b)
    decreases b - a
  {
    if a < b {
      SquareMonotone(a + 1, b);
    }
  }

  /** A natural is at most its square. */
  lemma {:induction false} SqAtLeast(c: nat)
    ensures c <= Sq(c)
  {
    if c > 0 {
      SqAtLeast(c - 1);
    }
  }

  /** A natural whose scaled square is below `num` is itself below `num`. */
  lemma BelowBound(num: nat, den: nat, c: nat)
    requires den > 0 && den * Sq(c) < num
    ensures c < num
  {
    SqAtLeast(c);
    MulLeft(Sq(c), 1, den);
  }

  /** The least `c` with `den * c² >= num`. */
  function LeastRoot(num: nat, den: nat): (c: nat)
    requires den > 0
    ensures den * Sq(c) >= num
    ensures c == 0 || den * Sq(c - 1) < num
  {
    SearchFrom(num, den, 0)
  }

  function SearchFrom(num: nat, den: nat, c: nat): (r: nat)
    requires den > 0
    requires c == 0 || den * Sq(c - 1) < num
    ensures den * Sq(r) >= num
    ensures r == 0 || den * Sq(r - 1) < num
    decreases num - c
  {
    if den * Sq(c) >= num then c
    else
      BelowBound(num, den, c);
      SearchFrom(num, den, c + 1)
  }

  /** Every `c` with `den * c² >= num` is at least `LeastRoot(num, den)`. */
  lemma LeastRootIsLeast(num: nat, den: nat, c: nat)
    requires den > 0
    requires den * Sq(c) >= num
    ensures LeastRoot(num, den) <= c
  {
    var r := LeastRoot(num, den);
    if c < r {
      SquareMonotone(c, r - 1);
      MulLeft(den, Sq(c), Sq(r - 1));
    }
  }
}
