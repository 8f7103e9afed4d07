/** Real multiples by repeated addition, so that products appear in few places. */
module Multiples {

  function Times(n: nat, x: real): real {
    if n == 0 then 0.0 else x + Times(n - 1, x)
  }

  lemma {:induction false} TimesIsProduct(n: nat, x: real)
    ensures Times(n, x) == n as real * x
  {
    if n > 0 { TimesIsProduct(n - 1, x); }
  }

  lemma Cancel(n: real, x: real, y: real, nx: real, ny: real)
    requires n > 0.0 && nx == n * x && ny == n * y && nx <= ny
    ensures x <= y
  {
  }
}
