/**
 * JavaScript number operations on integer and real operands, where Dafny's own
 * operators differ: the truncating remainder `%` and `Math.round`. Also the
 * Euclidean division facts the proofs about them need.
 */
module JsMath {

  /** `n * k` is at least `n` away from 0 unless `k` is 0. */
  lemma MulAwayFromZero(n: int, k: int)
    requires n > 0
    ensures k >= 1 ==> n * k >= n
    ensures k <= -1 ==> n * k <= -n
  {
    if k >= 1 {
      assert n * k == n * (k - 1) + n;
      assert n * (k - 1) >= 0;
    } else if k <= -1 {
      assert n * k == n * (k + 1) - n;
      assert n * (k + 1) <= 0;
    }
  }

  /** Euclidean division is determined by `a == n * q + r` with `0 <= r < n`. */
  lemma DivModUnique(a: int, n: int, q: int, r: int)
    requires n > 0 && 0 <= r < n && a == n * q + r
    ensures a / n == q && a % n == r
  {
    var q0, r0 := a / n, a % n;
    assert a == n * q0 + r0;
    assert n * (q - q0) == r0 - r by {
      assert n * (q - q0) == n * q - n * q0;
    }
    MulAwayFromZero(n, q - q0);
  }

  /** JavaScript `a % n` for n > 0: the remainder takes the sign of `a`. */
  function JsRem(a: int, n: int): (r: int)
    requires n > 0
    ensures -n < r < n
    ensures a >= 0 ==> r == a % n
    ensures a < 0 ==> r <= 0 && (r == 0 <==> a % n == 0) && (r < 0 ==> r + n == a % n)
  {
    if a >= 0 then a % n
    else
      var q, m := (-a) / n, (-a) % n;
      assert a == n * (-q) - m;
      if m == 0 then
        DivModUnique(a, n, -q, 0);
        0
      else
        DivModUnique(a, n, -q - 1, n - m);
        -m
  }

  lemma MulLe(a: int, b: int, n: nat)
    requires a <= b
    ensures a * n <= b * n
  {
    assert b * n - a * n == (b - a) * n;
  }

  /** `Math.round`: the nearest integer, halves rounded up. */
  function Round(x: real): (r: int)
    ensures x - 0.5 < r as real <= x + 0.5
  {
    (x + 0.5).Floor
  }

  lemma RoundOfInteger(t: int)
    ensures Round(t as real) == t
  {
  }
}
