/** Facts about concatenation that proofs call by name. */
module Sequences {

  lemma Assoc<T>(a: seq<T>, b: seq<T>, c: seq<T>)
    ensures a + (b + c) == (a + b) + c
  {
  }

  lemma Tail<T>(x: T, rest: seq<T>)
    ensures ([x] + rest)[1..] == rest
  {
  }

  lemma Unit<T>(a: seq<T>)
    ensures [] + a == a && a + [] == a
  {
  }
}
