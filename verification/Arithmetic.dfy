/** Powers, shifts and remainders. */
module Arithmetic {

  function Pow2(n: nat): (p: nat)
    ensures p > 0
  {
    if n == 0 then 1 else 2 * Pow2(n - 1)
  }

  function Pow256(n: nat): (p: nat)
    ensures p > 0
  {
    if n == 0 then 1 else 256 * Pow256(n - 1)
  }

  /** The value after `n` shifts by eight bits. */
  function Shifted(value: nat, n: nat): nat {
    if n == 0 then value else Shifted(value, n - 1) / 256
  }

  /** Quotient and remainder are unique. */
  lemma ModUnique(x: nat, m: nat, k: int, r: nat)
    requires r < m && x == m * k + r
    ensures x % m == r
  {
    var e := x / m - k;
    assert m * (x / m) - m * k == r - x % m;
    assert m * e == r - x % m;
    assert e >= 1 ==> m * e >= m;
    assert e <= -1 ==> m * e + m <= 0;
  }
}
