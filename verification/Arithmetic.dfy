/** Facts about remainders and powers of two shared by the other modules. */
module Arithmetic {

  lemma TimesAtLeast(q: int, n: nat)
    requires q >= 1
    ensures q * n >= n
  {
    assert q * n == (q - 1) * n + n;
  }

  lemma TimesAtMost(q: int, n: nat)
    requires q <= -1
    ensures q * n <= -(n as int)
  {
    assert q * n == (q + 1) * n - n;
  }

  /** A multiple of n strictly between -n and n is zero. */
  lemma SmallMultiple(q: int, n: nat)
    requires -(n as int) < q * n < n
    ensures q == 0
  {
    if q >= 1 {
      TimesAtLeast(q, n);
    } else if q <= -1 {
      TimesAtMost(q, n);
    }
  }

  /** A number is its quotient times n plus its remainder, and there is only one way to write it so. */
  lemma DivModUnique(i: int, q: int, r: int, n: nat)
    requires n > 0 && i == q * n + r && 0 <= r < n
    ensures i / n == q && i % n == r
  {
    var q', r' := i / n, i % n;
    assert i == q' * n + r';
    assert (q' - q) * n == r - r' by {
      assert (q' - q) * n == q' * n - q * n;
    }
    SmallMultiple(q' - q, n);
  }

  /** Two integers less than n apart that leave the same remainder are equal. */
  lemma SameRemainder(i: int, j: int, n: nat)
    requires n > 0 && i % n == j % n && -(n as int) < i - j < n
    ensures i == j
  {
    var q, q' := i / n, j / n;
    assert i == q * n + i % n && j == q' * n + j % n;
    assert (q - q') * n == i - j by {
      assert (q - q') * n == q * n - q' * n;
    }
    SmallMultiple(q - q', n);
  }

  /** Adding q multiples of n does not change the remainder. */
  lemma AddMultiple(i: int, q: int, n: nat)
    requires n > 0
    ensures (i + q * n) % n == i % n
  {
    var p := i / n;
    assert i + q * n == (p + q) * n + i % n by {
      assert (p + q) * n == p * n + q * n;
    }
    DivModUnique(i + q * n, p + q, i % n, n);
  }

  function Pow2(k: nat): (p: nat)
    ensures p > 0
  {
    if k == 0 then 1 else 2 * Pow2(k - 1)
  }

  lemma {:induction false} Pow2Add(j: nat, k: nat)
    ensures Pow2(j + k) == Pow2(j) * Pow2(k)
  {
    if j > 0 {
      Pow2Add(j - 1, k);
      assert Pow2(j) * Pow2(k) == 2 * (Pow2(j - 1) * Pow2(k));
    }
  }

  /** q * p is a multiple of 2 * p exactly when q is even; otherwise it leaves p. */
  lemma EvenMultiple(q: int, p: nat)
    requires p > 0
    ensures (q * p) % (2 * p) == q % 2 * p
  {
    var h, b := q / 2, q % 2;
    assert q * p == h * (2 * p) + b * p by {
      assert q == 2 * h + b;
      assert (2 * h + b) * p == h * (2 * p) + b * p;
    }
    DivModUnique(q * p, h, b * p, 2 * p);
  }

  /** Numbers leave the same remainder exactly when their difference is a multiple. */
  lemma SameRemainderDifference(x: int, y: int, n: nat)
    requires n > 0
    ensures x % n == y % n <==> (x - y) % n == 0
  {
    if (x - y) % n == 0 {
      var q := (x - y) / n;
      assert x == y + q * n;
      AddMultiple(y, q, n);
    } else if x % n == y % n {
      var q := x / n - y / n;
      assert x - y == 0 + q * n by {
        assert (x / n - y / n) * n == x / n * n - y / n * n;
        assert x == x / n * n + x % n && y == y / n * n + y % n;
      }
      AddMultiple(0, q, n);
      assert false;
    }
  }

  lemma DoubleRemainder(h: nat, b: nat, m: nat)
    requires m > 0 && b < 2
    ensures (2 * h + b) % (2 * m) == 2 * (h % m) + b
  {
    var q := h / m;
    assert 2 * h + b == q * (2 * m) + (2 * (h % m) + b) by {
      assert h == q * m + h % m;
      assert q * (2 * m) == 2 * (q * m);
    }
    DivModUnique(2 * h + b, q, 2 * (h % m) + b, 2 * m);
  }
}
