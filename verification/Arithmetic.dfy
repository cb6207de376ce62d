/** Multiplication, division and rounding, one small fact at a time. */
module Arithmetic {

  function Abs(n: int): (r: int)
    ensures r >= 0 && (r == n || r == -n)
  {
    if n < 0 then -n else n
  }

  function Max(x: int, y: int): int {
    if x < y then y else x
  }

  function Min(x: int, y: int): int {
    if x < y then x else y
  }

  lemma MultiplyMonotone(m: int, a: int, b: int)
    requires a <= b && m >= 0
    ensures a * m <= b * m
    ensures (a + 1) * m == a * m + m
  {
    assert b * m == a * m + (b - a) * m;
  }

  lemma DivideExactly(n: int, size: int, q: int, r: int)
    requires size > 0 && n == q * size + r && 0 <= r < size
    ensures n / size == q && n % size == r
  {
    var k, t := n / size, n % size;
    assert n == k * size + t;
    if q < k {
      MultiplyMonotone(size, q + 1, k);
      MultiplyMonotone(size, q, q);
    } else if k < q {
      MultiplyMonotone(size, k + 1, q);
      MultiplyMonotone(size, k, k);
    }
  }

  lemma NextRound(n: int, size: int)
    requires size > 0
    ensures (n + size) / size == n / size + 1 && (n + size) % size == n % size
  {
    var q, r := n / size, n % size;
    MultiplyMonotone(size, q, q);
    DivideExactly(n + size, size, q + 1, r);
  }

  /** `p / m` rounded to the nearest integer, halves upwards. */
  function Nearest(p: int, m: int): int
    requires m > 0
  {
    (2 * p + m) / (2 * m)
  }

  lemma DoubleProduct(q: int, m: int)
    ensures q * (2 * m) == 2 * (q * m)
  {
  }

  lemma NearestIff(p: int, m: int, j: int)
    requires m > 0
    ensures j == Nearest(p, m) <==> -m < 2 * (j * m - p) <= m
  {
    var n := 2 * p + m;
    var q := Nearest(p, m);
    assert n == q * (2 * m) + n % (2 * m);
    DoubleProduct(q, m);
    if j < q {
      MultiplyMonotone(m, j + 1, q);
      MultiplyMonotone(m, j, j);
    } else if q < j {
      MultiplyMonotone(m, q + 1, j);
      MultiplyMonotone(m, q, q);
    }
  }

  lemma NearestMonotone(p: int, s: int, m: int)
    requires m > 0 && p <= s
    ensures Nearest(p, m) <= Nearest(s, m)
  {
    var j, k := Nearest(p, m), Nearest(s, m);
    NearestIff(p, m, j);
    NearestIff(s, m, k);
    if k < j {
      MultiplyMonotone(m, k + 1, j);
      MultiplyMonotone(m, k, k);
    }
  }

  lemma NearestApart(p: int, s: int, m: int)
    requires m > 0 && p + m <= s
    ensures Nearest(p, m) + 1 <= Nearest(s, m)
  {
    var j := Nearest(p, m);
    NearestIff(p, m, j);
    MultiplyMonotone(m, j, j);
    NearestIff(p + m, m, j + 1);
    NearestMonotone(p + m, s, m);
  }

  lemma Distribute(a: int, b: int, n: int)
    ensures (a + b) * n == a * n + b * n
  {
  }

  lemma NearestOfMultiple(q: int, m: int)
    requires m > 0
    ensures Nearest(q * m, m) == q
  {
    NearestIff(q * m, m, q);
  }
}
