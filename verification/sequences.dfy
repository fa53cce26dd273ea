/** Two facts about concatenation that the row-by-row proofs rest on. */
module Sequences {
  /** Concatenation is associative. */
  lemma Regroup<T>(k: seq<T>, s: seq<T>, u: seq<T>)
    ensures k + (s + u) == (k + s) + u
  {
  }

  /** A non-empty sequence is its head followed by its tail, also in front of another sequence. */
  lemma SplitHead<T>(a: seq<T>, b: seq<T>)
    requires a != []
    ensures a == [a[0]] + a[1..] && a + b == [a[0]] + (a[1..] + b)
  {
  }
}
