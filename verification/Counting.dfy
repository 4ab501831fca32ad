/** How often a number occurs in a list, and how long a list is whose numbers occur so often. */
module Counting {

  function One(holds: bool): nat { if holds then 1 else 0 }

  function Copies(q: seq<nat>, b: nat): nat {
    if q == [] then 0 else One(q[0] == b) + Copies(q[1..], b)
  }

  lemma NoCopies(b: nat)
    ensures Copies([], b) == 0
  {
  }

  lemma Single(x: nat, b: nat)
    ensures Copies([x], b) == One(x == b)
  {
  }

  lemma {:induction false} Append(q: seq<nat>, x: nat, b: nat)
    ensures Copies(q + [x], b) == Copies(q, b) + One(x == b)
  {
    if q == [] {
      assert q + [x] == [x];
    } else {
      assert (q + [x])[1..] == q[1..] + [x];
      Append(q[1..], x, b);
    }
  }

  lemma {:induction false} CopiesCount(q: seq<nat>, b: nat)
    ensures Copies(q, b) == multiset(q)[b]
  {
    if q != [] {
      assert q == [q[0]] + q[1..];
      CopiesCount(q[1..], b);
    }
  }

  lemma {:induction false} CopiesConcat(p: seq<nat>, q: seq<nat>, b: nat)
    ensures Copies(p + q, b) == Copies(p, b) + Copies(q, b)
  {
    if p == [] {
      assert p + q == q;
    } else {
      assert (p + q)[1..] == p[1..] + q;
      CopiesConcat(p[1..], q, b);
    }
  }

  lemma {:induction false} CopiesIn(q: seq<nat>, b: nat)
    ensures Copies(q, b) > 0 <==> b in q
  {
    CopiesCount(q, b);
  }

  function Range(n: nat): (r: seq<nat>)
    ensures |r| == n && forall i | 0 <= i < n :: r[i] == i
  {
    seq(n, i => i)
  }

  lemma {:induction false} RangeCounts(n: nat, b: nat)
    ensures Copies(Range(n), b) == One(b < n)
  {
    if n > 0 {
      RangeCounts(n - 1, b);
      assert Range(n) == Range(n - 1) + [n - 1];
      Append(Range(n - 1), n - 1, b);
    }
  }

  /** A list of distinct numbers below n that misses x < n is shorter than n. */
  lemma Missing(q: seq<nat>, x: nat, n: nat)
    requires x < n && Copies(q, x) == 0 && forall b: nat :: Copies(q, b) <= One(b < n)
    ensures |q| < n
  {
    var all: multiset<nat>, has: multiset<nat>, one: multiset<nat> := multiset(Range(n)), multiset(q), multiset{x};
    forall b: nat ensures (has + one)[b] <= all[b] {
      assert Copies(q, b) <= One(b < n);
      RangeCounts(n, b);
      CopiesCount(q, b);
      CopiesCount(Range(n), b);
    }
    assert has + one <= all;
    assert all == has + one + (all - has - one);
  }

  /** A list that has each number below n once, and otherwise only copies of x >= n, has length n plus those copies. */
  lemma LengthFromCopies(q: seq<nat>, n: nat, x: nat)
    requires x >= n && forall b: nat :: b != x ==> Copies(q, b) == One(b < n)
    ensures |q| == n + Copies(q, x)
  {
    var has: multiset<nat>, all: multiset<nat> := multiset(q), multiset(Range(n));
    var extra: multiset<nat> := multiset{}[x := Copies(q, x)];
    forall b: nat ensures has[b] == (all + extra)[b] {
      CopiesCount(q, b);
      CopiesCount(Range(n), b);
      RangeCounts(n, b);
    }
    assert has == all + extra;
  }

  lemma LengthAtMost(q: seq<nat>, n: nat, x: nat)
    requires x >= n && forall b: nat :: b != x ==> Copies(q, b) <= One(b < n)
    ensures |q| <= n + Copies(q, x)
  {
    var has: multiset<nat>, all: multiset<nat> := multiset(q), multiset(Range(n));
    var extra: multiset<nat> := multiset{}[x := Copies(q, x)];
    forall b: nat ensures has[b] <= (all + extra)[b] {
      CopiesCount(q, b);
      CopiesCount(Range(n), b);
      RangeCounts(n, b);
    }
    var rest := all + extra - has;
    assert all + extra == has + rest;
    assert |has + rest| == |has| + |rest| && |all + extra| == |all| + |extra|;
  }
}
