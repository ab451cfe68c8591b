/** Powers of two. */
module Powers {

  function Pow2(n: nat): nat {
    if n == 0 then 1 else 2 * Pow2(n - 1)
  }

  lemma {:induction false} Pow2Positive(n: nat)
    ensures Pow2(n) > 0
  {
    if n == 0 {
    } else {
      Pow2Positive(n - 1);
    }
  }

  lemma {:induction false} Pow2Add(m: nat, n: nat)
    ensures Pow2(m + n) == Pow2(m) * Pow2(n)
  {
    hide Pow2;
    Pow2Next(m);
    if m == 0 {
      Product(1, Pow2(n));
    } else {
      Pow2Add(m - 1, n);
      Pow2Next(m - 1);
      Pow2Next(m - 1 + n);
      Product(Pow2(m - 1), Pow2(n));
    }
  }

  lemma {:induction false} Pow2Next(n: nat)
    ensures Pow2(n + 1) == 2 * Pow2(n) && Pow2(0) == 1
  {
  }

  lemma {:induction false} Product(a: nat, b: nat)
    ensures (2 * a) * b == 2 * (a * b) && 1 * b == b
  {
  }

  lemma {:induction false} Pow2Monotone(m: nat, n: nat)
    requires m <= n
    ensures Pow2(m) <= Pow2(n)
  {
    if m < n {
      Pow2Monotone(m, n - 1);
    }
  }

  lemma {:induction false} Pow2Small()
    ensures Pow2(7) == 128 && Pow2(8) == 256 && Pow2(10) == 1024 && Pow2(11) == 2048
  {
    assert Pow2(5) == 32;
  }
}
