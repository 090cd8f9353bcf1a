/** Rounded-up division. */
module Arithmetic {
  /** `Math.ceil(n / d)`: the least k with n <= k * d. */
  function CeilDiv(n: nat, d: nat): (k: nat)
    requires d > 0
    ensures n <= k * d && (k > 0 ==> (k - 1) * d < n) && (n == 0 <==> k == 0)
  {
    if n == 0 then 0 else if n <= d then 1 else CeilDiv(n - d, d) + 1
  }

  lemma {:induction false} CeilDivMonotone(m: nat, n: nat, d: nat)
    requires d > 0 && m <= n
    ensures CeilDiv(m, d) <= CeilDiv(n, d)
  {
    if m > d {
      CeilDivMonotone(m - d, n - d, d);
    }
  }

  lemma CeilDivStep(n: nat, d: nat)
    requires d > 0
    ensures n > 0 ==> CeilDiv(n + d, d) == CeilDiv(n, d) + 1
  {
  }
}
