/** The bot's randomness: each `Math.random()` call is a draw in [0, 1) that
    the caller supplies. */
module Random {
  /** One value of `Math.random()`. */
  type Draw = u: real | 0.0 <= u < 1.0

  /** `Math.floor(u * n)`: an index below `n`, or 0 when `n` is 0. */
  function Pick(u: Draw, n: nat): (r: nat)
    ensures n > 0 ==> r < n
    ensures n == 0 ==> r == 0
  {
    PickBound(u, n);
    (u * n as real).Floor
  }

  lemma PickBound(u: Draw, n: nat)
    ensures 0 <= (u * n as real).Floor
    ensures n > 0 ==> (u * n as real).Floor < n
  {
    assert 0.0 <= u * n as real;
    if n > 0 {
      assert u * n as real < n as real;
    }
  }

  /** Every index below `n` is the pick of some draw: the draw `k / n`. */
  lemma PickReaches(n: nat, k: nat)
    requires k < n
    ensures var u: Draw := k as real / n as real; Pick(u, n) == k
  {
    var u: real := k as real / n as real;
    assert u * n as real == k as real;
  }
}
