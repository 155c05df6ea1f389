// Small facts about multiples that the solver needs one at a time.
module Arith {
  lemma DivExact(a: int, m: int)
    requires m > 0 && a % m == 0
    ensures (a / m) * m == a
  {
  }

  lemma MulAtLeast(k: int, m: int)
    requires m > 0 && k >= 1
    ensures k * m >= m
  {
  }

  lemma MulAtMost(k: int, m: int)
    requires m > 0 && k <= 0
    ensures k * m <= 0
  {
  }

  lemma ProductsApart(i: int, j: int, m: int)
    requires m > 0 && i * m < j * m
    ensures j * m - i * m >= m
  {
    if j - i >= 1 { MulAtLeast(j - i, m); } else { MulAtMost(j - i, m); }
    assert (j - i) * m == j * m - i * m;
  }

  // Two different multiples of m are at least m apart.
  lemma MultiplesApart(a: int, b: int, m: int)
    requires m > 0 && a < b && a % m == 0 && b % m == 0
    ensures b - a >= m
  {
    DivExact(a, m);
    DivExact(b, m);
    ProductsApart(a / m, b / m, m);
  }

  lemma MultipleMod(q: int, m: int)
    requires m > 0
    ensures (q * m) % m == 0
  {
    var d := (q * m) / m;
    var r := (q * m) % m;
    assert (q - d) * m == r;
    assert q - d >= 1 ==> (q - d) * m >= m;
    assert q - d <= -1 ==> (q - d) * m <= -m;
  }
}
