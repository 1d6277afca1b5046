/** Multiplication and division by a variable. */
module Arithmetic {
  function Min(a: int, b: int): int {
    if a < b then a else b
  }

  function Max(a: int, b: int): int {
    if a < b then b else a
  }

  lemma TimesMonotone(b: int, m: int, n: int)
    requires b >= 0 && m <= n
    ensures b * m <= b * n
  {
  }

  lemma QuotientUnique(a: int, r: int, q: int, m: int)
    requires r > 0 && a == r * q + m && 0 <= m < r
    ensures a / r == q
  {
    var p := a / r;
    if p > q { TimesMonotone(r, q + 1, p); }
    if p < q { TimesMonotone(r, p + 1, q); }
  }

  lemma QuotientMonotone(a: int, b: int, r: int)
    requires 0 <= a <= b && r > 0
    ensures a / r <= b / r
  {
    var p, q := a / r, b / r;
    if p > q { TimesMonotone(r, q + 1, p); }
  }
}
