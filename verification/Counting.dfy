/** Weighted counts over the threads of a protocol, kept as sequences indexed by thread. */
module Counting {

  function Sum<T>(s: seq<T>, weight: T -> nat): nat {
    if s == [] then 0 else Sum(s[..|s| - 1], weight) + weight(s[|s| - 1])
  }

  /** Changing one thread changes the count by that thread's weight only. */
  lemma {:induction false} SumUpdate<T>(s: seq<T>, i: nat, x: T, weight: T -> nat)
    requires i < |s|
    ensures Sum(s[i := x], weight) + weight(s[i]) == Sum(s, weight) + weight(x)
  {
    var init := s[..|s| - 1];
    if i == |s| - 1 {
      assert s[i := x][..|s| - 1] == init;
    } else {
      SumUpdate(init, i, x, weight);
      assert s[i := x][..|s| - 1] == init[i := x];
    }
  }

  /** A count is at least the weight of each thread in it. */
  lemma {:induction false} SumAtLeast<T>(s: seq<T>, i: nat, weight: T -> nat)
    requires i < |s|
    ensures weight(s[i]) <= Sum(s, weight)
  {
    if i < |s| - 1 {
      SumAtLeast(s[..|s| - 1], i, weight);
    }
  }

  /** A positive count has a thread that contributes to it. */
  lemma {:induction false} SumWitness<T>(s: seq<T>, weight: T -> nat) returns (i: nat)
    requires Sum(s, weight) > 0
    ensures i < |s| && weight(s[i]) > 0
  {
    i := |s| - 1;
    if weight(s[i]) == 0 {
      i := SumWitness(s[..|s| - 1], weight);
    }
  }

  lemma {:induction false} SumAtMost<T>(s: seq<T>, weight: T -> nat, bound: nat)
    requires forall i :: 0 <= i < |s| ==> weight(s[i]) <= bound
    ensures Sum(s, weight) <= bound * |s|
  {
    if s != [] {
      SumAtMost(s[..|s| - 1], weight, bound);
    }
  }
}
