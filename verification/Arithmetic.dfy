/** Facts about row-by-row storage: u * n + v with v below n. */
module Arithmetic {

  lemma RowStep(n: nat, u: nat, a: nat)
    requires u < a
    ensures u * n + n <= a * n
  {
    assert a * n == u * n + (a - u) * n;
    assert (a - u) * n == n + (a - u - 1) * n;
  }

  lemma IndexInRange(n: nat, u: nat, v: nat)
    requires u < n && v < n
    ensures 0 <= u * n + v < n * n
  {
    RowStep(n, u, n);
  }

  lemma IndexUnique(n: nat, u: nat, v: nat, a: nat, b: nat)
    requires v < n && b < n && u * n + v == a * n + b
    ensures u == a && v == b
  {
    if u < a {
      RowStep(n, u, a);
    } else if a < u {
      RowStep(n, a, u);
    }
  }

  lemma QuotientUnique(n: nat, u: nat, v: nat)
    requires v < n
    ensures (u * n + v) / n == u && (u * n + v) % n == v
  {
    var x := u * n + v;
    Divide(x, n);
    IndexUnique(n, x / n, x % n, u, v);
  }

  lemma Divide(x: nat, n: nat)
    requires n > 0
    ensures 0 <= x / n && 0 <= x % n < n && x / n * n + x % n == x
  {
  }

  /** The row of a cell of an m by n table. */
  lemma RowInRange(x: nat, m: nat, n: nat)
    requires x < m * n && n > 0
    ensures x / n < m
  {
    Divide(x, n);
    if m < x / n {
      RowStep(n, m, x / n);
    }
  }
}
