/** Quotient and remainder by a positive number. */
module Division {

  type Pos = x: int | 0 < x witness 1

  lemma Scale(n: Pos, d: int)
    ensures d >= 1 ==> n * d >= n
    ensures d <= -1 ==> n * d <= 0 - n
  {
  }

  lemma DivMod(t: nat, n: Pos)
    ensures t == n * (t / n) + t % n && 0 <= t % n < n && t / n >= 0
  {
  }

  lemma DivModUnique(a: int, n: Pos, q: int, r: int)
    requires a == q * n + r && 0 <= r < n
    ensures a / n == q && a % n == r
  {
    var d := a / n - q;
    assert a == n * (a / n) + a % n;
    assert n * (a / n) == n * (q + d) == n * q + n * d;
    Scale(n, d);
  }
}
