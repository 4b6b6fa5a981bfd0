/** Division by a variable: what the solver needs to be told. */
module Division {

  lemma DivUnique(v: nat, lo: nat, q: nat, e: nat)
    requires v == q * lo + e && e < lo
    ensures v / lo == q && v % lo == e
  {
    var k := v / lo;
    assert v == k * lo + v % lo;
    GrowsBy(k, q, lo);
    GrowsBy(q, k, lo);
  }

  lemma GrowsBy(x: nat, y: nat, m: nat)
    ensures x < y ==> x * m + m <= y * m
  {
    if x < y {
      Grows(x + 1, y, m);
      assert (x + 1) * m == x * m + m;
    }
  }

  lemma Grows(x: nat, y: nat, m: nat)
    requires x <= y
    ensures x * m <= y * m
  {
  }

  lemma Euclid(n: nat, m: nat)
    requires m > 0
    ensures n == n / m * m + n % m && 0 <= n % m < m && n / m >= 0
  {
  }
}
