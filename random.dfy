/** `Math.random()` and the `Math.floor(Math.random() * n)` idiom. */
module RandomSource {

  /** A value `Math.random()` may return: a real in [0, 1). */
  type Unit = u: real | 0.0 <= u < 1.0

  /** `Math.floor(u * n)`: a uniformly chosen index below n. */
  function Scale(u: Unit, n: nat): (k: nat)
    requires n > 0
    ensures k < n
    ensures k as real <= u * n as real < k as real + 1.0
  {
    ScaledBelow(u, n);
    (u * n as real).Floor
  }

  /** u·n stays below n, one step of n at a time. */
  lemma {:induction false} ScaledBelow(u: Unit, n: nat)
    requires n > 0
    ensures 0.0 <= u * n as real < n as real
  {
    if n > 1 {
      ScaledBelow(u, n - 1);
      assert u * n as real == u * (n - 1) as real + u;
    }
  }
}
