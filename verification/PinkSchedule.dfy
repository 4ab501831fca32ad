/** Which row each call of GeneratePinkNoise in src/pink.c replaces, over any stretch of calls. */
module PinkSchedule {
  import opened Arithmetic
  import opened Pink
  import opened RandomGenerator

  /** The index of the t-th call from now, when the index is `start` now. */
  function IndexAfter(start: nat, t: nat, n: nat): nat {
    (start + t) % Pow2(n)
  }

  /** This is the index that GeneratePinkNoise reaches, one call at a time. */
  lemma IndexAdvances(start: nat, t: nat, n: nat)
    ensures IndexAfter(start, t + 1, n) == (IndexAfter(start, t, n) + 1) % Pow2(n)
  {
    var m := Pow2(n);
    var q := (start + t) / m;
    assert start + t + 1 == (start + t) % m + 1 + q * m;
    AddMultiple((start + t) % m + 1, q, m);
  }

  /** A call that advances the index to i replaces row k. */
  predicate Replaces(i: nat, k: nat) {
    i > 0 && TrailingZeros(i) == k
  }

  /** i has k trailing zeros exactly when it leaves 2^k modulo 2^(k+1). */
  lemma {:induction false} ZerosResidue(i: nat, k: nat)
    requires i > 0
    ensures TrailingZeros(i) == k <==> i % Pow2(k + 1) == Pow2(k)
  {
    DoubleRemainder(i / 2, i % 2, Pow2(k));
    if k > 0 && i % 2 == 0 {
      ZerosResidue(i / 2, k - 1);
    } else if k == 0 {
      assert Pow2(1) == 2;
    }
  }

  lemma RemainderOfRemainder(x: nat, a: nat, b: nat)
    requires a > 0 && b > 0
    ensures a * b > 0 && (x % (a * b)) % a == x % a
  {
    TimesAtLeast(a, b);
    var q := x / (a * b);
    var r := x % (a * b);
    assert x == r + b * q * a by {
      assert b * q * a == q * (a * b);
    }
    AddMultiple(r, b * q, a);
  }

  /** The wrap of the index does not change what it leaves modulo a smaller power of two. */
  lemma IndexResidue(start: nat, t: nat, n: nat, k: nat)
    requires k < n
    ensures IndexAfter(start, t, n) % Pow2(k + 1) == (start + t) % Pow2(k + 1)
  {
    hide Pow2;
    Pow2Add(k + 1, n - k - 1);
    RemainderOfRemainder(start + t, Pow2(k + 1), Pow2(n - k - 1));
  }

  /** Row k is replaced exactly by the calls whose count is 2^k modulo 2^(k+1), also across the wrap of the index. */
  lemma RowSchedule(start: nat, t: nat, n: nat, k: nat)
    requires k < n
    ensures Replaces(IndexAfter(start, t, n), k) <==> (start + t) % Pow2(k + 1) == Pow2(k)
  {
    hide Pow2, TrailingZeros, IndexAfter;
    IndexResidue(start, t, n, k);
    if IndexAfter(start, t, n) > 0 {
      ZerosResidue(IndexAfter(start, t, n), k);
    }
  }

  /** So the replacements of row k are 2^(k+1) calls apart. */
  lemma RowPeriod(start: nat, t: nat, n: nat, k: nat, d: nat)
    requires k < n && Replaces(IndexAfter(start, t, n), k) && 0 < d <= Pow2(k + 1)
    ensures Replaces(IndexAfter(start, t + d, n), k) <==> d == Pow2(k + 1)
  {
    var m := Pow2(k + 1);
    RowSchedule(start, t, n, k);
    RowSchedule(start, t + d, n, k);
    if d == m {
      AddMultiple(start + t, 1, m);
    } else if (start + t + d) % m == (start + t) % m {
      SameRemainder(start + t + d, start + t, m);
      assert false;
    }
  }

  /** How many of the next `len` calls have a count that leaves r modulo m. */
  function Hits(start: nat, len: nat, m: nat, r: nat): nat
    requires m > 0
  {
    if len == 0 then 0 else Hits(start, len - 1, m, r) + if (start + len) % m == r then 1 else 0
  }

  /** Advancing a number by one moves the quotient exactly when the remainder becomes 0. */
  lemma NextQuotient(y: nat, m: nat)
    requires m > 0
    ensures (y + 1) / m == y / m + if (y + 1) % m == 0 then 1 else 0
  {
    var q, r := y / m, y % m;
    assert y == q * m + r;
    if r == m - 1 {
      assert y + 1 == (q + 1) * m + 0 by {
        assert (q + 1) * m == q * m + m;
      }
      DivModUnique(y + 1, q + 1, 0, m);
    } else {
      DivModUnique(y + 1, q, r + 1, m);
    }
  }

  lemma {:induction false} HitsClosed(start: nat, len: nat, m: nat, r: nat)
    requires r < m
    ensures Hits(start, len, m, r) == (start + len + m - r) / m - (start + m - r) / m
  {
    if len > 0 {
      HitsClosed(start, len - 1, m, r);
      var y := start + len - 1 + m - r;
      NextQuotient(y, m);
      SameRemainderDifference(start + len, r, m);
      AddMultiple(start + len - r, 1, m);
      DivModUnique(r, 0, r, m);
    }
  }

  lemma ShiftQuotient(x: nat, q: nat, m: nat)
    requires m > 0
    ensures (x + q * m) / m == x / m + q
  {
    assert (x / m + q) * m == x / m * m + q * m;
    DivModUnique(x + q * m, x / m + q, x % m, m);
  }

  /** A stretch of q periods has q hits, wherever it starts. */
  lemma HitsInPeriods(start: nat, q: nat, m: nat, r: nat)
    requires r < m
    ensures q * m >= 0 && Hits(start, q * m, m, r) == q
  {
    hide Hits;
    HitsClosed(start, q * m, m, r);
    ShiftQuotient(start + m - r, q, m);
  }

  /** How many of the next `len` calls replace row k. */
  function Replacements(start: nat, len: nat, n: nat, k: nat): nat {
    if len == 0 then 0
    else Replacements(start, len - 1, n, k) + if Replaces(IndexAfter(start, len, n), k) then 1 else 0
  }

  /** How many of the next `len` calls replace no row. */
  function Idle(start: nat, len: nat, n: nat): nat {
    if len == 0 then 0 else Idle(start, len - 1, n) + if IndexAfter(start, len, n) == 0 then 1 else 0
  }

  lemma {:induction false} ReplacementsAreHits(start: nat, len: nat, n: nat, k: nat)
    requires k < n
    ensures Replacements(start, len, n, k) == Hits(start, len, Pow2(k + 1), Pow2(k))
  {
    if len > 0 {
      ReplacementsAreHits(start, len - 1, n, k);
      RowSchedule(start, len, n, k);
    }
  }

  lemma {:induction false} IdleIsHits(start: nat, len: nat, n: nat)
    ensures Idle(start, len, n) == Hits(start, len, Pow2(n), 0)
  {
    if len > 0 {
      IdleIsHits(start, len - 1, n);
    }
  }

  lemma IndexCycle(start: nat, n: nat, k: nat)
    requires k < n
    ensures Replacements(start, Pow2(n), n, k) == Pow2(n - 1 - k)
    ensures Idle(start, Pow2(n), n) == 1
  {
    ReplacementsAreHits(start, Pow2(n), n, k);
    Pow2Add(n - 1 - k, k + 1);
    HitsInPeriods(start, Pow2(n - 1 - k), Pow2(k + 1), Pow2(k));
    IdleIsHits(start, Pow2(n), n);
    HitsInPeriods(start, 1, Pow2(n), 0);
  }

  // ---------- the calls themselves ----------

  /** The state after t calls of GeneratePinkNoise. */
  function Calls(s: Noise, t: nat): (s': Noise)
    ensures |s'.rows| == |s.rows|
  {
    if t == 0 then s else Called(Calls(s, t - 1))
  }

  lemma {:induction false} CallsIndex(s: Noise, t: nat)
    requires s.index < Pow2(|s.rows|)
    ensures Calls(s, t).index == IndexAfter(s.index, t, |s.rows|)
  {
    if t == 0 {
      DivModUnique(s.index, 0, s.index, Pow2(|s.rows|));
    } else {
      CallsIndex(s, t - 1);
      IndexAdvances(s.index, t - 1, |s.rows|);
    }
  }

  /** Call t replaces row k by the next random number, or leaves it. */
  predicate CallReplaces(s: Noise, t: nat, k: nat) {
    Replaces(Calls(s, t + 1).index, k)
  }

  lemma RowAfterCall(s: Noise, t: nat, k: nat)
    requires s.index < Pow2(|s.rows|) && k < |s.rows|
    ensures Calls(s, t + 1).rows[k] ==
      if CallReplaces(s, t, k) then Draw(WordStep(Calls(s, t).seed, LONG_BITS)) else Calls(s, t).rows[k]
  {
    var i := Calls(s, t + 1).index;
    if i > 0 {
      ZerosBelow(i, |s.rows|);
    }
  }

  /** How many of the first `len` calls replace row k, and how many replace no row. */
  function CallsReplacing(s: Noise, len: nat, k: nat): nat {
    if len == 0 then 0 else CallsReplacing(s, len - 1, k) + if CallReplaces(s, len - 1, k) then 1 else 0
  }

  function IdleCalls(s: Noise, len: nat): nat {
    if len == 0 then 0 else IdleCalls(s, len - 1) + if Calls(s, len).index == 0 then 1 else 0
  }

  lemma {:induction false} CallsByIndex(s: Noise, len: nat, k: nat)
    requires s.index < Pow2(|s.rows|)
    ensures CallsReplacing(s, len, k) == Replacements(s.index, len, |s.rows|, k)
    ensures IdleCalls(s, len) == Idle(s.index, len, |s.rows|)
  {
    if len > 0 {
      CallsByIndex(s, len - 1, k);
      CallsIndex(s, len);
    }
  }

  /**
   Of any 2^n consecutive calls with n rows, exactly 2^(n-1-k) replace row k and exactly one replaces no row, and
   the index is then back where it was.
   */
  lemma FullCycle(s: Noise, k: nat)
    requires s.index < Pow2(|s.rows|) && k < |s.rows|
    ensures CallsReplacing(s, Pow2(|s.rows|), k) == Pow2(|s.rows| - 1 - k)
    ensures IdleCalls(s, Pow2(|s.rows|)) == 1
    ensures Calls(s, Pow2(|s.rows|)).index == s.index
  {
    hide CallsReplacing, IdleCalls, Replacements, Idle, Calls;
    var n := |s.rows|;
    CallsByIndex(s, Pow2(n), k);
    IndexCycle(s.index, n, k);
    CallsIndex(s, Pow2(n));
    AddMultiple(s.index, 1, Pow2(n));
    DivModUnique(s.index, 0, s.index, Pow2(n));
  }

  /** A call draws two random numbers, or one if it replaces no row. */
  lemma {:induction false} SeedAfterCalls(s: Noise, t: nat)
    ensures 0 <= 2 * t - IdleCalls(s, t) && Calls(s, t).seed == WordIterate(2 * t - IdleCalls(s, t), s.seed, LONG_BITS)
  {
    hide WordStep, Replaced, Draw, Pow2;
    if t > 0 {
      SeedAfterCalls(s, t - 1);
      var before := 2 * (t - 1) - IdleCalls(s, t - 1);
      WordIterateLast(before, s.seed, LONG_BITS);
      WordIterateLast(before + 1, s.seed, LONG_BITS);
    }
  }

  /** Any 2^n consecutive calls with n rows draw 2^(n+1) - 1 random numbers. */
  lemma DrawsPerCycle(s: Noise)
    requires s.index < Pow2(|s.rows|)
    ensures Calls(s, Pow2(|s.rows|)).seed == WordIterate(2 * Pow2(|s.rows|) - 1, s.seed, LONG_BITS)
  {
    hide Calls, IdleCalls, CallsReplacing, Idle, Hits, WordIterate;
    var n := |s.rows|;
    SeedAfterCalls(s, Pow2(n));
    CallsByIndex(s, Pow2(n), 0);
    IdleIsHits(s.index, Pow2(n), n);
    HitsInPeriods(s.index, 1, Pow2(n), 0);
  }

  /** After a call that replaces row k the next one that does comes exactly 2^(k+1) calls later. */
  lemma CallPeriod(s: Noise, t: nat, k: nat, d: nat)
    requires s.index < Pow2(|s.rows|) && k < |s.rows| && CallReplaces(s, t, k) && 0 < d <= Pow2(k + 1)
    ensures CallReplaces(s, t + d, k) <==> d == Pow2(k + 1)
  {
    CallsIndex(s, t + 1);
    CallsIndex(s, t + d + 1);
    RowPeriod(s.index, t + 1, |s.rows|, k, d);
  }
}
