/** Powers of two. */
module Powers {

  function Pow2(n: nat): (p: int)
    ensures p >= 1
  {
    if n == 0 then 1 else 2 * Pow2(n - 1)
  }

  lemma {:induction false} Pow2Monotone(m: nat, n: nat)
    requires m <= n
    ensures Pow2(m) <= Pow2(n)
  {
    if m < n {
      Pow2Monotone(m, n - 1);
    }
  }

  lemma {:induction false} Pow2Sum(m: nat, n: nat)
    ensures Pow2(m + n) == Pow2(m) * Pow2(n)
  {
    if n > 0 {
      Pow2Sum(m, n - 1);
      var k: nat := m + n - 1;
      assert Pow2(m + n) == 2 * Pow2(k);
      DoubleLast(Pow2(m), Pow2(n - 1));
    }
  }

  lemma {:induction false} DoubleLast(a: int, b: int)
    ensures a * (2 * b) == 2 * (a * b)
  {
  }
}
