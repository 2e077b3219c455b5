/** Counters along a run: one that moves by one at certain actions counts those actions. */
module Counting {

  /** The indices below `n` that hit. */
  function Hits(hit: seq<bool>, n: nat): set<nat>
    requires n <= |hit|
  {
    set k: nat | k < n && hit[k]
  }

  lemma {:induction false} CountsHits(counter: seq<int>, hit: seq<bool>, n: nat)
    requires n <= |hit| < |counter| && counter[0] == 0
    requires forall k {:trigger hit[k]} | 0 <= k < |hit| :: counter[k + 1] == counter[k] + if hit[k] then 1 else 0
    ensures counter[n] == |Hits(hit, n)|
  {
    if n > 0 {
      CountsHits(counter, hit, n - 1);
      assert Hits(hit, n) == Hits(hit, n - 1) + if hit[n - 1] then {n - 1} else {};
    }
  }

  lemma SameHits(hit: seq<bool>, n: nat, s: set<nat>)
    requires n <= |hit| && forall k: nat :: k in s <==> k < n && hit[k]
    ensures Hits(hit, n) == s
  {
  }
}
