/**
 The pink noise generator of src/pink.c: rows of random numbers whose sum is kept up to date while one row,
 chosen by the trailing zeros of a counter, is replaced per call.
 */
module Pink {
  import opened Arithmetic
  import opened RandomGenerator

  const MAX_RANDOM_ROWS: nat := 30
  const RANDOM_BITS: nat := 24
  /** 1 << (PINK_RANDOM_BITS - 1): the largest magnitude of a row. */
  const HALF: int := 0x80_0000

  /** A value fits a signed 32-bit long. */
  predicate InLong(x: int) { -0x8000_0000 <= x < 0x8000_0000 }

  /** ((long) r) >> PINK_RANDOM_SHIFT: the word read as signed, then shifted right by 32 - 24 bits keeping the sign. */
  function Draw(r: nat): (d: int)
    requires r < Pow2(LONG_BITS)
    ensures -0x80_0000 <= d < 0x80_0000 && (256 * d + r % 256) % 0x1_0000_0000 == r
  {
    BitsOfLong();
    (if r >= 0x8000_0000 then r - 0x1_0000_0000 else r) / 256
  }

  /** Bitwise and. */
  function And(x: nat, y: nat): (z: nat) {
    if x == 0 || y == 0 then 0 else 2 * And(x / 2, y / 2) + if x % 2 == 1 && y % 2 == 1 then 1 else 0
  }

  /** Masking with 2^n - 1 gives the remainder modulo 2^n. */
  lemma {:induction false} MaskIsRemainder(x: nat, n: nat)
    ensures And(x, Pow2(n) - 1) == x % Pow2(n)
  {
    if n > 0 {
      var m := Pow2(n - 1);
      MaskIsRemainder(x / 2, n - 1);
      assert (2 * m - 1) / 2 == m - 1 && (2 * m - 1) % 2 == 1;
      DoubleRemainder(x / 2, x % 2, m);
    }
  }

  function TrailingZeros(n: nat): (z: nat)
    requires n > 0
  {
    if n % 2 == 1 then 0 else 1 + TrailingZeros(n / 2)
  }

  function Sum(rows: seq<int>): int {
    if rows == [] then 0 else Sum(rows[..|rows| - 1]) + rows[|rows| - 1]
  }

  /** The largest magnitude of a sum of n rows and one more random number. */
  function Largest(n: nat): (m: int)
    ensures m == (n + 1) * 0x80_0000 > 0
  {
    (n + 1) * HALF
  }

  function Ratio(x: int, y: int): real
    requires y != 0
  {
    x as real / y as real
  }

  /** The rows after a call that advanced the index to i and drew x: index 0 replaces no row. */
  function Replaced(rows: seq<int>, i: nat, x: int): seq<int> {
    if i > 0 && TrailingZeros(i) < |rows| then rows[TrailingZeros(i) := x] else rows
  }

  /** What GeneratePinkNoise reads and changes: the rows in use, the index and the seed of the generator. */
  datatype Noise = Noise(rows: seq<int>, index: nat, seed: nat)

  /** The state after a call of GeneratePinkNoise. */
  function Called(s: Noise): (s': Noise)
    ensures |s'.rows| == |s.rows|
  {
    var i := (s.index + 1) % Pow2(|s.rows|);
    var first := WordStep(s.seed, LONG_BITS);
    Noise(Replaced(s.rows, i, Draw(first)), i, if i == 0 then first else WordStep(first, LONG_BITS))
  }

  /** The first number that a program draws. */
  lemma FirstDraw()
    ensures WordStep(22222, LONG_BITS) == 4009202705 < Pow2(LONG_BITS) && Draw(4009202705) == -1116268
  {
    BitsOfLong();
  }

  lemma {:induction false} SumUpdate(rows: seq<int>, k: nat, x: int)
    requires k < |rows|
    ensures Sum(rows[k := x]) == Sum(rows) - rows[k] + x
  {
    var n := |rows| - 1;
    if k == n {
      assert rows[k := x][..n] == rows[..n];
    } else {
      assert rows[k := x][..n] == rows[..n][k := x];
      SumUpdate(rows[..n], k, x);
    }
  }

  lemma {:induction false} SumZeros(rows: seq<int>)
    requires forall i | 0 <= i < |rows| :: rows[i] == 0
    ensures Sum(rows) == 0
  {
    if rows != [] {
      SumZeros(rows[..|rows| - 1]);
    }
  }

  lemma {:induction false} SumBounds(rows: seq<int>)
    requires forall i | 0 <= i < |rows| :: -HALF <= rows[i] < HALF
    ensures -|rows| * HALF <= Sum(rows) <= |rows| * (HALF - 1)
  {
    if rows != [] {
      SumBounds(rows[..|rows| - 1]);
    }
  }

  lemma SumWithin(rows: seq<int>, d: int)
    requires |rows| <= MAX_RANDOM_ROWS && forall i | 0 <= i < |rows| :: -HALF <= rows[i] < HALF
    requires -HALF <= d < HALF
    ensures -Largest(|rows|) <= Sum(rows) + d < Largest(|rows|) && InLong(Sum(rows) + d)
  {
    SumBounds(rows);
  }

  /** The trailing zeros of an index below 2^n select one of n rows. */
  lemma {:induction false} ZerosBelow(i: nat, n: nat)
    requires 0 < i < Pow2(n)
    ensures TrailingZeros(i) < n
  {
    if i % 2 == 0 {
      ZerosBelow(i / 2, n - 1);
    }
  }

  lemma ThirtyBits()
    ensures Pow2(30) == 0x4000_0000
  {
    assert Pow2(10) == 1024;
    Pow2Add(10, 10);
    Pow2Add(20, 10);
  }

  lemma SmallPowers(n: nat)
    requires n <= MAX_RANDOM_ROWS
    ensures Pow2(n) <= 0x4000_0000
  {
    hide Pow2;
    ThirtyBits();
    Pow2Add(n, 30 - n);
    TimesAtLeast(Pow2(30 - n), Pow2(n));
  }

  class PinkNoise {
    const pinkRows: array<int>
    var pinkRunningSum: int
    var pinkIndex: int
    var pinkIndexMask: int
    var pinkScalar: real
    const numRows: nat
    const random: Generator

    ghost predicate Valid()
      reads this, pinkRows, random
    {
      && random.Valid() && pinkRows.Length == MAX_RANDOM_ROWS && numRows <= MAX_RANDOM_ROWS
      && pinkIndexMask == Pow2(numRows) - 1 && 0 <= pinkIndex <= pinkIndexMask
      && pinkRunningSum == Sum(pinkRows[..numRows])
      && (forall k | 0 <= k < numRows :: -HALF <= pinkRows[k] < HALF)
      && pinkScalar == 1.0 / Largest(numRows) as real
    }

    ghost function State(): Noise
      requires Valid()
      reads this, pinkRows, random
    {
      Noise(pinkRows[..numRows], pinkIndex, random.randSeed)
    }

    /** InitializePinkNoise.  Rows beyond numRows keep what the memory held and are never used. */
    constructor (numRows: nat, random: Generator)
      requires numRows <= MAX_RANDOM_ROWS && random.Valid()
      ensures Valid() && this.numRows == numRows && this.random == random && fresh(pinkRows)
      ensures pinkIndex == 0 && pinkRunningSum == 0
    {
      this.numRows, this.random := numRows, random;
      pinkIndex, pinkIndexMask := 0, Pow2(numRows) - 1;
      var pmax := Largest(numRows);
      pinkScalar := 1.0 / pmax as real;
      SmallPowers(numRows);
      assert InLong(Pow2(numRows)) && InLong(pmax);  // neither shift overflows
      pinkRows := new int[MAX_RANDOM_ROWS];
      pinkRunningSum := 0;
      new;
      for i := 0 to numRows
        invariant pinkRows.Length == MAX_RANDOM_ROWS && fresh(pinkRows)
        invariant forall k | 0 <= k < i :: pinkRows[k] == 0
        invariant random.randSeed == old(random.randSeed)
        modifies pinkRows
      {
        pinkRows[i] := 0;
      }
      SumZeros(pinkRows[..numRows]);
    }

    /** The first half of GeneratePinkNoise: advances the index modulo 2^numRows and replaces the row it selects. */
    method ReplaceRow()
      requires Valid()
      modifies this`pinkIndex, this`pinkRunningSum, pinkRows, random
      ensures Valid() && pinkIndex == (old(pinkIndex) + 1) % Pow2(numRows)
      ensures pinkRows[..numRows] ==
        Replaced(old(pinkRows[..numRows]), pinkIndex, Draw(WordStep(old(random.randSeed), LONG_BITS)))
      ensures random.randSeed ==
        if pinkIndex == 0 then old(random.randSeed) else WordStep(old(random.randSeed), LONG_BITS)
    {
      hide And, WordStep, Draw, Largest, Sum;
      MaskIsRemainder(pinkIndex + 1, numRows);
      pinkIndex := And(pinkIndex + 1, pinkIndexMask);
      ghost var rows := pinkRows[..numRows];
      SumBounds(rows);
      if pinkIndex != 0 {
        ZerosBelow(pinkIndex, numRows);
        var numZeros, n := 0, pinkIndex;
        while n % 2 == 0
          invariant n > 0 && TrailingZeros(n) + numZeros == TrailingZeros(pinkIndex)
          decreases n
        {
          n := n / 2;
          numZeros := numZeros + 1;
        }
        assert numZeros == TrailingZeros(pinkIndex) < numRows;
        assert InLong(pinkRunningSum - pinkRows[numZeros]);
        pinkRunningSum := pinkRunningSum - pinkRows[numZeros];
        var r := random.GenerateRandomNumber();
        var newRandom := Draw(r);
        assert InLong(pinkRunningSum + newRandom);
        pinkRunningSum := pinkRunningSum + newRandom;
        pinkRows[numZeros] := newRandom;
        SumUpdate(rows, numZeros, newRandom);
        assert pinkRows[..numRows] == rows[numZeros := newRandom];
      }
    }

    /**
     GeneratePinkNoise.  Unless the index becomes 0 one row is replaced by the next random number; one more
     random number is added to the sum of all rows, and the result is scaled to [-1, 1).
     */
    method GeneratePinkNoise() returns (output: real)
      requires Valid()
      modifies this`pinkIndex, this`pinkRunningSum, pinkRows, random
      ensures Valid() && State() == Called(old(State()))
      ensures output == Ratio(Sum(pinkRows[..numRows]) + Draw(random.randSeed), Largest(numRows))
      ensures -1.0 <= output < 1.0
    {
      hide Ratio, WordStep, Draw, Replaced, Sum, Largest, Pow2;
      ReplaceRow();
      var r := random.GenerateRandomNumber();
      var newRandom := Draw(r);
      SumWithin(pinkRows[..numRows], newRandom);
      var sum := pinkRunningSum + newRandom;
      assert InLong(sum);
      output := pinkScalar * sum as real;
      ghost var scaled := Scaled(pinkScalar, sum, numRows);
    }
  }

  lemma SignOfFactor(a: real, m: real)
    requires m > 0.0
    ensures a < 0.0 <==> a * m < 0.0
  {
  }

  lemma DivideBelow(x: real, m: real)
    requires m > 0.0 && -m <= x < m
    ensures 1.0 / m * x == x / m && -1.0 <= x / m < 1.0
  {
    var q := x / m;
    assert q * m == x;
    assert 1.0 / m * m == 1.0;
    assert 1.0 / m * x == 1.0 / m * m * q;
    SignOfFactor(q - 1.0, m);
    SignOfFactor(q + 1.0, m);
    assert (q - 1.0) * m == x - m && (q + 1.0) * m == x + m;
  }

  /** Dividing a sum of n rows and one more number by the largest magnitude of such a sum gives a value in [-1, 1). */
  lemma Scaled(scalar: real, sum: int, n: nat) returns (output: real)
    requires -Largest(n) <= sum < Largest(n) && scalar == 1.0 / Largest(n) as real
    ensures output == scalar * sum as real == Ratio(sum, Largest(n))
    ensures -1.0 <= output < 1.0
  {
    hide Largest;
    output := scalar * sum as real;
    DivideBelow(sum as real, Largest(n) as real);
  }
}
