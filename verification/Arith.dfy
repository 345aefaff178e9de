/** Integer arithmetic the models share. */
module Arith {

  function Max(a: int, b: int): int { if a < b then b else a }

  function Min(a: int, b: int): int { if a < b then a else b }

  function Clamp(x: int, lo: int, hi: int): int {
    if x < lo then lo else if hi < x then hi else x
  }

  function CeilDiv(a: int, b: int): int
    requires b > 0
  {
    (a + b - 1) / b
  }

  lemma MulAtLeast(x: int, d: int)
    requires d > 0
    ensures x >= 1 ==> x * d >= d
    ensures x <= -1 ==> x * d <= -d
  {
    if x >= 1 {
      assert (x - 1) * d >= 0;
    } else if x <= -1 {
      assert (-1 - x) * d >= 0;
    }
  }

  lemma ProductMonotone(a: int, b: int, a': int, b': int)
    requires 0 <= a' <= a && 0 <= b' <= b
    ensures a' * b' <= a * b
  {
    assert a' * b' <= a * b';
    assert a * b' <= a * b;
  }

  lemma DivModUnique(x: int, d: int, q: int, r: int)
    requires 0 <= r < d && x == q * d + r
    ensures x / d == q && x % d == r
  {
    var q' := x / d;
    assert x == q' * d + x % d;
    assert (q - q') * d == x % d - r;
    MulAtLeast(q - q', d);
  }

  lemma DivStep(x: int, d: int)
    requires d > 0
    ensures if x % d + 1 == d then (x + 1) / d == x / d + 1 && (x + 1) % d == 0
            else (x + 1) / d == x / d && (x + 1) % d == x % d + 1
  {
    var q, r := x / d, x % d;
    if r + 1 == d {
      assert x + 1 == (q + 1) * d;
      DivModUnique(x + 1, d, q + 1, 0);
    } else {
      DivModUnique(x + 1, d, q, r + 1);
    }
  }

  lemma DivBound(l: int, n: int, q: int)
    requires n > 0 && q <= l / n
    ensures q * n <= l
  {
    assert (l / n) * n <= l;
    assert q * n <= (l / n) * n;
  }

  lemma DivAtLeast(l: int, n: int, q: int)
    requires n > 0 && q * n <= l
    ensures q <= l / n
  {
    var r := l / n;
    assert l == r * n + l % n;
    assert (q - r) * n == q * n - r * n;
    MulAtLeast(q - r, n);
  }

  lemma DivSign(x: int, d: int)
    requires d > 0
    ensures x / d >= 0 <==> x >= 0
  {
    if x < 0 {
      DivBound(x, d, x / d);
      MulAtLeast(x / d, d);
    } else {
      DivAtLeast(x, d, 0);
    }
  }

  lemma DivMonotone(a: int, b: int, d: int)
    requires d > 0 && a <= b
    ensures a / d <= b / d
  {
    DivBound(a, d, a / d);
    DivAtLeast(b, d, a / d);
  }

  lemma CeilDivBounds(a: int, b: int)
    requires b > 0
    ensures a <= CeilDiv(a, b) * b < a + b
    ensures a / b <= CeilDiv(a, b)
  {
    var q := CeilDiv(a, b);
    assert a + b - 1 == q * b + (a + b - 1) % b;
    DivMonotone(a, a + b - 1, b);
  }
}
