/** Python's `random` module replaced by an injected stream of draws: the
    k-th call of the turn to `random` is answered from `draws(k)`. */
module RandomSource {

  type Draws = nat -> nat

  /** The remainder of a divided by n (a % n), by repeated subtraction. */
  function Remainder(a: nat, n: nat): (r: nat)
    requires n > 0
    ensures r < n
    decreases a
  {
    if a < n then a else Remainder(a - n, n)
  }

  /** `random.choice(xs)` answered by draw number k: the draw, reduced
      modulo the length, is the index. */
  function Choice<T>(xs: seq<T>, draws: Draws, k: nat): (x: T)
    requires xs != []
    ensures x in xs
  {
    xs[Remainder(draws(k), |xs|)]
  }

  /** `random.randint(lo, hi)` (both bounds included) answered by draw number k. */
  function RandInt(lo: int, hi: int, draws: Draws, k: nat): (n: int)
    requires lo <= hi
    ensures lo <= n <= hi
  {
    lo + Remainder(draws(k), hi - lo + 1)
  }
}
