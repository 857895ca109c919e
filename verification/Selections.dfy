/** What it means for a list to pick entries of another one, in order. */
module Selections {

  /** Positions in increasing order, hence each at most once. */
  ghost predicate Increasing(at: seq<nat>) {
    forall i, j :: 0 <= i < j < |at| ==> at[i] < at[j]
  }

  /** `at` lists, in order, exactly the positions below `n` that are in `chosen`. */
  ghost predicate Picks(at: seq<nat>, n: nat, chosen: iset<nat>) {
    && Increasing(at)
    && (forall k :: 0 <= k < |at| ==> at[k] < n && at[k] in chosen)
    && (forall i: nat :: i < n && i in chosen ==> i in at)
  }

  lemma NonePicked(chosen: iset<nat>)
    ensures Picks([], 0, chosen)
  {
  }

  lemma NoneToPick(at: seq<nat>, chosen: iset<nat>)
    requires Picks(at, 0, chosen)
    ensures at == []
  {
    if at != [] {
      PickedBelow(at, 0, chosen, 0);
      assert false;
    }
  }

  lemma PickedBelow(at: seq<nat>, n: nat, chosen: iset<nat>, k: nat)
    requires Picks(at, n, chosen) && k < |at|
    ensures at[k] < n
  {
  }

  lemma PicksNext(at: seq<nat>, n: nat, before: iset<nat>, chosen: iset<nat>) returns (at': seq<nat>)
    requires Picks(at, n, before) && forall i: nat :: i < n ==> (i in before <==> i in chosen)
    ensures Picks(at', n + 1, chosen) && at' == if n in chosen then at + [n] else at
  {
    at' := if n in chosen then at + [n] else at;
    forall i: nat | i < n + 1 && i in chosen ensures i in at' {
      if i == n { assert at'[|at|] == n; }
    }
  }
}
