/** Facts about Euclidean remainder used by the wrap-around cursors and the repeated reel. */
module Modular {

  lemma ModShiftBack(j: nat, len: nat, n: nat)
    requires n > 0 && len % n == 0 && len <= j
    ensures (j - len) % n == j % n
  {
    ModShiftLen(j - len, len, n);
  }

  lemma ModShiftLen(x: nat, len: nat, n: nat)
    requires n > 0 && len % n == 0
    ensures (x + len) % n == x % n
  {
    assert len == n * (len / n);
    ModShift(x, n, len / n);
  }

  lemma MulLe(n: nat, a: int, b: int)
    requires a <= b
    ensures n * a <= n * b
  {
  }

  /** Euclidean division has one quotient and one remainder. */
  lemma ModUnique(a: int, n: int, q: int, r: int)
    requires n > 0 && 0 <= r < n && a == n * q + r
    ensures a / n == q && a % n == r
  {
    var q2, r2 := a / n, a % n;
    assert a == n * q2 + r2;
    if q2 > q {
      MulLe(n, q + 1, q2);
      assert false;
    } else if q2 < q {
      MulLe(n, q2 + 1, q);
      assert false;
    }
  }

  lemma ModShift(x: nat, n: nat, c: nat)
    requires n > 0
    ensures (x + n * c) % n == x % n
  {
    var q, r := x / n, x % n;
    assert x + n * c == n * (q + c) + r;
    ModUnique(x + n * c, n, q + c, r);
  }

  /** Stepping a cursor that is already reduced modulo `n` is stepping the raw count. */
  lemma ModAddOne(x: nat, n: nat)
    requires n > 0
    ensures (x % n + 1) % n == (x + 1) % n
  {
    var q, r := x / n, x % n;
    assert x == n * q + r;
    if r + 1 < n {
      ModUnique(x + 1, n, q, r + 1);
      ModUnique(r + 1, n, 0, r + 1);
    } else {
      assert x + 1 == n * (q + 1) + 0;
      ModUnique(x + 1, n, q + 1, 0);
      ModUnique(r + 1, n, 1, 0);
    }
  }
}
