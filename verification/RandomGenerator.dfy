/**
 The linear congruential generator of src/pink.c: every seed runs through all words before one comes back.
 The number theory holds for every word width; the generator object has the 32 bits of the target.
 */
module RandomGenerator {
  import opened Arithmetic

  const MULTIPLIER: int := 196314165
  const INCREMENT: int := 907633515
  /** Bits of an unsigned long. */
  const LONG_BITS: nat := 32

  /** i steps on unbounded integers. */
  function Iterate(i: nat, x: int): int {
    if i == 0 then x else Iterate(i - 1, MULTIPLIER * x + INCREMENT)
  }

  lemma {:induction false} IterateAdd(i: nat, j: nat, x: int)
    ensures Iterate(i + j, x) == Iterate(j, Iterate(i, x))
  {
    if i > 0 {
      IterateAdd(i - 1, j, MULTIPLIER * x + INCREMENT);
    }
  }

  /** 2^k steps are the map x -> (1 + 4 * 2^k * u) * x + 2^k * (2 * v + 1), with these u and v. */
  ghost function U(k: nat): int {
    if k == 0 then MULTIPLIER / 4 else U(k - 1) + 2 * Pow2(k - 1) * (U(k - 1) * U(k - 1))
  }

  ghost function V(k: nat): int {
    if k == 0 then INCREMENT / 2 else V(k - 1) + Pow2(k - 1) * (U(k - 1) * (2 * V(k - 1) + 1))
  }

  /** One affine step x -> (1 + w) * x + b taken twice. */
  lemma Twice(w: int, b: int, x: int)
    ensures (1 + w) * ((1 + w) * x + b) + b == (1 + 2 * w + w * w) * x + (2 * b + w * b)
  {
    var y := (1 + w) * x + b;
    assert (1 + w) * x == x + w * x;
    assert (1 + w) * y == y + w * y;
    assert w * y == w * x + w * (w * x) + w * b by {
      assert w * y == w * ((x + w * x) + b) == w * (x + w * x) + w * b;
      assert w * (x + w * x) == w * x + w * (w * x);
    }
    assert w * (w * x) == (w * w) * x;
    assert (1 + 2 * w + w * w) * x == (1 + 2 * w) * x + (w * w) * x == x + 2 * (w * x) + (w * w) * x;
  }

  lemma DoubleFactor(p: int, u: int)
    ensures 1 + 2 * (4 * p * u) + (4 * p * u) * (4 * p * u) == 1 + 4 * (2 * p) * (u + 2 * p * (u * u))
  {
    var t := p * u;
    assert 4 * p * u == 4 * t;
    assert (4 * t) * (4 * t) == 16 * (t * t);
    assert t * t == p * (p * (u * u));
    assert 4 * (2 * p) * (u + 2 * p * (u * u)) == 8 * (p * (u + 2 * (p * (u * u)))) ==
      8 * (t + 2 * (p * (p * (u * u))));
  }

  lemma DoubleTerm(p: int, u: int, v: int)
    ensures 2 * (p * (2 * v + 1)) + (4 * p * u) * (p * (2 * v + 1)) == 2 * p * (2 * (v + p * (u * (2 * v + 1))) + 1)
  {
    var c := 2 * v + 1;
    var d := p * (u * c);
    assert (4 * p * u) * (p * c) == 4 * (p * d) by {
      assert (4 * p * u) * (p * c) == 4 * ((p * u) * (p * c));
      assert (p * u) * (p * c) == p * (u * (p * c)) == p * (p * (u * c));
    }
    assert 2 * p * (2 * (v + d) + 1) == 2 * (p * (c + 2 * d)) == 2 * (p * c + 2 * (p * d));
  }

  lemma Double(p: int, u: int, v: int, x: int, y: int)
    requires y == (1 + 4 * p * u) * x + p * (2 * v + 1)
    ensures (1 + 4 * p * u) * y + p * (2 * v + 1) ==
            (1 + 4 * (2 * p) * (u + 2 * p * (u * u))) * x + 2 * p * (2 * (v + p * (u * (2 * v + 1))) + 1)
  {
    Twice(4 * p * u, p * (2 * v + 1), x);
    DoubleFactor(p, u);
    DoubleTerm(p, u, v);
  }

  lemma {:induction false} Jump(k: nat, x: int)
    ensures Iterate(Pow2(k), x) == (1 + 4 * Pow2(k) * U(k)) * x + Pow2(k) * (2 * V(k) + 1)
  {
    if k == 0 {
      assert Iterate(1, x) == Iterate(0, MULTIPLIER * x + INCREMENT);
    } else {
      var p := Pow2(k - 1);
      var y := Iterate(p, x);
      IterateAdd(p, p, x);
      Jump(k - 1, x);
      Jump(k - 1, y);
      Double(p, U(k - 1), V(k - 1), x, y);
    }
  }

  lemma Expand(p: int, u: int, v: int, x: int)
    ensures (1 + 4 * p * u) * x + p * (2 * v + 1) == x + p + 2 * p * (2 * (u * x) + v)
  {
    assert (4 * p * u) * x == 2 * p * (2 * (u * x));
    assert (1 + 4 * p * u) * x == x + (4 * p * u) * x;
    assert 2 * p * (2 * (u * x) + v) == 2 * p * (2 * (u * x)) + 2 * p * v;
  }

  /** 2^k steps add 2^k, up to a multiple of 2^(k+1). */
  lemma JumpAdds(k: nat, x: int) returns (r: int)
    ensures Iterate(Pow2(k), x) == x + Pow2(k) + 2 * Pow2(k) * r
  {
    Jump(k, x);
    var p, u, v := Pow2(k), U(k), V(k);
    r := 2 * (u * x) + v;
    Expand(p, u, v, x);
  }

  lemma {:induction false} JumpsAdd(k: nat, q: nat, x: int) returns (r: int)
    ensures q * Pow2(k) >= 0
    ensures Iterate(q * Pow2(k), x) == x + q * Pow2(k) + 2 * Pow2(k) * r
  {
    var p := Pow2(k);
    if q == 0 {
      r := 0;
    } else {
      var before := JumpsAdd(k, q - 1, x);
      var y := Iterate((q - 1) * p, x);
      var last := JumpAdds(k, y);
      assert q * p == (q - 1) * p + p;
      IterateAdd((q - 1) * p, p, x);
      r := before + last;
      assert 2 * p * r == 2 * p * before + 2 * p * last;
    }
  }

  /** Two numbers of steps lead to the same word of k bits exactly when they are equal modulo 2^k. */
  lemma {:induction false} SameWord(k: nat, x: int, i: nat, j: nat)
    requires i >= j
    ensures (Iterate(i, x) - Iterate(j, x)) % Pow2(k) == 0 <==> (i - j) % Pow2(k) == 0
  {
    if k > 0 {
      var p := Pow2(k - 1);
      var d := Iterate(i, x) - Iterate(j, x);
      SameWord(k - 1, x, i, j);
      HalfDivides(d, p);
      HalfDivides(i - j, p);
      if (i - j) % p == 0 {
        var q: nat := (i - j) / p;
        assert i == j + q * p;
        IterateAdd(j, q * p, x);
        var r := JumpsAdd(k - 1, q, Iterate(j, x));
        assert d == q * p + r * (2 * p) by {
          assert r * (2 * p) == 2 * p * r;
        }
        AddMultiple(q * p, r, 2 * p);
      }
    }
  }

  /** A multiple of 2 * p is a multiple of p. */
  lemma HalfDivides(d: int, p: nat)
    requires p > 0
    ensures d % (2 * p) == 0 ==> d % p == 0
  {
    if d % (2 * p) == 0 {
      var h := d / (2 * p);
      assert d == 0 + 2 * h * p by {
        assert d == 2 * p * h;
      }
      AddMultiple(0, 2 * h, p);
    }
  }

  lemma OtherHalf(d: int, p: nat, q: int, r: int)
    requires p > 0 && d == q * p && d % (2 * p) != 0
    ensures (d + p + 2 * p * r) % (2 * p) == 0
  {
    EvenMultiple(q, p);
    EvenMultiple(q + 1, p);
    assert (q + 1) * p == d + p && r * (2 * p) == 2 * p * r;
    AddMultiple((q + 1) * p, r, 2 * p);
  }

  /** Every word of k bits is reached from every seed within 2^k steps. */
  lemma {:induction false} Reaches(k: nat, x: int, y: int) returns (i: nat)
    ensures i < Pow2(k) && (Iterate(i, x) - y) % Pow2(k) == 0
  {
    if k == 0 {
      i := 0;
    } else {
      var p := Pow2(k - 1);
      i := Reaches(k - 1, x, y);
      var d := Iterate(i, x) - y;
      var q := d / p;
      assert d == q * p;
      EvenMultiple(q, p);
      if d % (2 * p) != 0 {
        var r := JumpAdds(k - 1, Iterate(i, x));
        IterateAdd(i, p, x);
        OtherHalf(d, p, q, r);
        i := i + p;
      }
    }
  }

  // ---------- words ----------

  /** One step on words of w bits. */
  function WordStep(x: nat, w: nat): (r: nat)
    ensures r < Pow2(w)
  {
    (x * MULTIPLIER + INCREMENT) % Pow2(w)
  }

  function WordIterate(i: nat, x: nat, w: nat): nat {
    if i == 0 then x else WordIterate(i - 1, WordStep(x, w), w)
  }

  /** Truncating in every step or only at the end makes no difference. */
  lemma {:induction false} Truncates(i: nat, x: nat, w: nat, big: int)
    requires x < Pow2(w) && x == big % Pow2(w)
    ensures WordIterate(i, x, w) == Iterate(i, big) % Pow2(w)
  {
    if i > 0 {
      var m := Pow2(w);
      var q := big / m;
      var next := MULTIPLIER * big + INCREMENT;
      assert next == x * MULTIPLIER + INCREMENT + MULTIPLIER * q * m by {
        assert big == q * m + x;
        assert MULTIPLIER * (q * m + x) == MULTIPLIER * q * m + x * MULTIPLIER;
      }
      AddMultiple(x * MULTIPLIER + INCREMENT, MULTIPLIER * q, m);
      Truncates(i - 1, WordStep(x, w), w, next);
    }
  }

  /**
   Full period: from any seed, the first 2^w words are all words, each once; more steps only repeat them
   (i and j steps agree exactly when i and j agree modulo 2^w).
   */
  lemma FullPeriod(w: nat, seed: nat, i: nat, j: nat, y: nat) returns (n: nat)
    requires seed < Pow2(w) && y < Pow2(w) && i >= j
    ensures WordIterate(i, seed, w) == WordIterate(j, seed, w) <==> i % Pow2(w) == j % Pow2(w)
    ensures n < Pow2(w) && WordIterate(n, seed, w) == y
  {
    var m := Pow2(w);
    DivModUnique(seed, 0, seed, m);
    Truncates(i, seed, w, seed);
    Truncates(j, seed, w, seed);
    SameRemainderDifference(Iterate(i, seed), Iterate(j, seed), m);
    SameRemainderDifference(i, j, m);
    SameWord(w, seed, i, j);
    n := Reaches(w, seed, y);
    Truncates(n, seed, w, seed);
    SameRemainderDifference(Iterate(n, seed), y, m);
    DivModUnique(y, 0, y, m);
  }

  lemma {:induction false} WordIterateLast(i: nat, x: nat, w: nat)
    ensures WordIterate(i + 1, x, w) == WordStep(WordIterate(i, x, w), w)
  {
    if i > 0 {
      WordIterateLast(i - 1, WordStep(x, w), w);
    }
  }

  /** The step is a bijection on words: 2^w - 1 further steps undo it, before or after. */
  lemma StepIsBijection(w: nat, x: nat)
    requires x < Pow2(w)
    ensures WordIterate(Pow2(w) - 1, WordStep(x, w), w) == x
    ensures WordStep(WordIterate(Pow2(w) - 1, x, w), w) == x
  {
    var n := FullPeriod(w, x, Pow2(w), 0, x);
    AddMultiple(0, 1, Pow2(w));
    WordIterateLast(Pow2(w) - 1, x, w);
  }

  /** The generator of the program, with its static seed. */
  class Generator {
    var randSeed: nat

    ghost predicate Valid()
      reads this
    {
      randSeed < Pow2(LONG_BITS)
    }

    constructor ()
      ensures Valid() && randSeed == 22222
    {
      randSeed := 22222;
      BitsOfLong();
    }

    method GenerateRandomNumber() returns (r: nat)
      requires Valid()
      modifies this
      ensures Valid() && r == randSeed == WordStep(old(randSeed), LONG_BITS)
      ensures r == (old(randSeed) * 196314165 + 907633515) % 0x1_0000_0000
    {
      BitsOfLong();
      randSeed := (randSeed * MULTIPLIER + INCREMENT) % 0x1_0000_0000;
      return randSeed;
    }
  }

  lemma BitsOfLong()
    ensures Pow2(LONG_BITS) == 0x1_0000_0000
  {
    assert Pow2(8) == 256;
    Pow2Add(8, 8);
    Pow2Add(16, 16);
  }
}
