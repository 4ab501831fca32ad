/**
 Whole calls in the runs of the step machines: when a thread is inside one, and what its steps, and no others,
 append to a history.
 */
module Calls {

  /**
   The thread with program counters pcs begins a call at `first` in the step after state j, and is still in it
   before state k.
   */
  ghost predicate Within<Pc>(pcs: seq<Pc>, outside: Pc -> bool, first: Pc, j: nat, k: nat) {
    && j < k < |pcs| && outside(pcs[j]) && pcs[j + 1] == first && !outside(first)
    && forall m | j < m < k :: !outside(pcs[m])
  }

  /** A whole call, which is over in state k. */
  ghost predicate IsCall<Pc>(pcs: seq<Pc>, outside: Pc -> bool, first: Pc, j: nat, k: nat) {
    Within(pcs, outside, first, j, k) && outside(pcs[k])
  }

  /** What f says of each state. */
  function Each<S, T>(run: seq<S>, f: S -> T): (r: seq<T>)
    ensures |r| == |run| && forall k | 0 <= k < |run| :: r[k] == f(run[k])
  {
    seq(|run|, k requires 0 <= k < |run| => f(run[k]))
  }

  /** What a step appended to a history; a step that does anything else to it is no appending. */
  function Added(before: seq<nat>, after: seq<nat>): seq<nat> {
    if before <= after then after[|before|..] else before + after
  }

  /** What the steps of the thread with program counters pcs from state j to state k appended. */
  function AddedBy<Pc(==)>(pcs: seq<Pc>, history: seq<seq<nat>>, j: nat, k: nat): seq<nat>
    requires j <= k < |pcs| == |history|
  {
    if j == k then [] else
      AddedBy(pcs, history, j, k - 1) + if pcs[k - 1] == pcs[k] then [] else Added(history[k - 1], history[k])
  }

  lemma OneMore<Pc>(pcs: seq<Pc>, history: seq<seq<nat>>, j: nat, k: nat)
    requires j < k < |pcs| == |history|
    ensures pcs[k - 1] == pcs[k] ==> AddedBy(pcs, history, j, k) == AddedBy(pcs, history, j, k - 1)
    ensures pcs[k - 1] != pcs[k] ==>
      AddedBy(pcs, history, j, k) == AddedBy(pcs, history, j, k - 1) + Added(history[k - 1], history[k])
  {
  }

  lemma FirstStep<Pc>(pcs: seq<Pc>, history: seq<seq<nat>>, j: nat)
    requires j + 1 < |pcs| == |history| && history[j + 1] == history[j]
    ensures AddedBy(pcs, history, j, j + 1) == []
  {
    AddedNothing(history[j]);
    assert AddedBy(pcs, history, j, j) == [];
  }

  lemma AddedNothing(h: seq<nat>)
    ensures Added(h, h) == []
  {
  }

  lemma AddedOne(h: seq<nat>, v: nat)
    ensures Added(h, h + [v]) == [v]
  {
  }
}
