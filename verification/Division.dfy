/** Euclidean division by a variable divisor. */
module Division {

  lemma MulSign(d: int, n: int)
    requires n > 0
    ensures d >= 1 ==> d * n >= n
    ensures d <= -1 ==> d * n <= -n
  {
    assert (d - 1) * n == d * n - n;
    assert (d + 1) * n == d * n + n;
  }

  lemma DivUnique(a: nat, n: nat, q: nat)
    requires n > 0 && q * n <= a < q * n + n
    ensures a / n == q && a % n == a - q * n
  {
    var d := a / n - q;
    assert a == n * (a / n) + a % n;
    assert a - q * n == d * n + a % n;
    MulSign(d, n);
  }

  lemma DivAddOne(a: nat, n: nat)
    requires n > 0
    ensures (a + n) / n == a / n + 1
  {
    assert a == n * (a / n) + a % n;
    assert (a / n + 1) * n == n * (a / n) + n;
    DivUnique(a + n, n, a / n + 1);
  }

  lemma DivMono(a: nat, b: nat, n: nat)
    requires n > 0 && a <= b
    ensures a / n <= b / n
  {
    assert a == n * (a / n) + a % n;
    assert b == n * (b / n) + b % n;
    var d := b / n - a / n;
    assert b - a == d * n + b % n - a % n;
    MulSign(d, n);
  }

  lemma ModSucc(a: nat, n: nat)
    requires n > 0
    ensures (a + 1) % n == if a % n == n - 1 then 0 else a % n + 1
  {
    assert a == n * (a / n) + a % n;
    if a % n == n - 1 {
      assert (a / n + 1) * n == n * (a / n) + n;
      DivUnique(a + 1, n, a / n + 1);
    } else {
      assert (a / n) * n == n * (a / n);
      DivUnique(a + 1, n, a / n);
    }
  }
}
