/**
  Kotlin's `Int` division and remainder for a positive divisor. Kotlin, like
  Java, truncates toward zero, so `-7 / 5 == -1` and `-7 % 5 == -2`, whereas
  Dafny's `/` and `%` are Euclidean. Every divisor the modelled screens use
  (a list size, the constant 2) is positive.
*/
module KotlinInt {

  function Abs(x: int): (r: nat)
    ensures r == x || r == -x
  {
    if x < 0 then -x else x
  }

  function Min(x: int, y: int): (r: int)
    ensures r <= x && r <= y && (r == x || r == y)
  {
    if x <= y then x else y
  }

  /** Kotlin `a / n`: the quotient rounded toward zero. */
  function Div(a: int, n: int): (q: int)
    requires n > 0
    ensures a >= 0 ==> 0 <= a - n * q < n
    ensures a < 0 ==> -n < a - n * q <= 0
  {
    if a >= 0 then a / n else -((-a) / n)
  }

  /** Kotlin `a % n`: the remainder takes the sign of the dividend. */
  function Rem(a: int, n: int): (r: int)
    requires n > 0
    ensures a == n * Div(a, n) + r
    ensures a >= 0 ==> 0 <= r < n
    ensures a < 0 ==> -n < r <= 0
  {
    if a >= 0 then a % n else -((-a) % n)
  }

  lemma {:induction false} MulAtLeast(n: int, k: int)
    requires n > 0 && k >= 1
    ensures n * k >= n
    decreases k
  {
    if k > 1 {
      MulAtLeast(n, k - 1);
      assert n * k == n * (k - 1) + n;
    }
  }

  /** A multiple of a positive number has the sign of its factor and is at least that large. */
  lemma MulSign(n: int, k: int)
    requires n > 0
    ensures k >= 1 ==> n * k >= n
    ensures k <= -1 ==> n * k <= -n
  {
    if k >= 1 {
      MulAtLeast(n, k);
    } else if k <= -1 {
      MulAtLeast(n, -k);
      assert n * k == -(n * (-k));
    }
  }

  /** Euclidean division has one quotient and one remainder. */
  lemma ModUnique(a: int, n: int, q: int, r: int)
    requires n > 0 && 0 <= r < n && a == n * q + r
    ensures a % n == r && a / n == q
  {
    var q', r' := a / n, a % n;
    assert n * q + r == n * q' + r';
    assert n * (q - q') == r' - r;
    if q > q' {
      MulAtLeast(n, q - q');
    } else if q < q' {
      MulAtLeast(n, q' - q);
    }
  }
}
