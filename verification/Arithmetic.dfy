/** Facts about remainders. */
module Arithmetic {

  function Min(a: nat, b: nat): nat {
    if a < b then a else b
  }

  lemma {:induction false} RemainderIs(a: nat, n: nat, q: nat, r: nat)
    requires r < n && a == q * n + r
    ensures a % n == r && a / n == q
  {
    var q', r' := a / n, a % n;
    assert a == q' * n + r';
    if q > q' {
      MoreMultiples(q, q', n);
    } else if q < q' {
      MoreMultiples(q', q, n);
    }
  }

  lemma {:induction false} MoreMultiples(a: nat, b: nat, n: nat)
    requires a > b
    ensures a * n >= b * n + n
  {
    assert (a - b - 1) * n >= 0;
    assert a * n == (a - b - 1) * n + b * n + n;
  }
}
