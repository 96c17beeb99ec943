/** Counting and removal on sequences, and results that a loop hands out piece by piece. */
module Sequences {
  function One(b: bool): nat {
    if b then 1 else 0
  }

  /** The sequence without its element at `k`. */
  function Without<T>(s: seq<T>, k: nat): (r: seq<T>)
    requires k < |s|
    ensures |r| == |s| - 1
  {
    s[..k] + s[k + 1..]
  }

  /** What is left of a loop that has already handed out `first`. */
  function Prepend<A, B, T>(first: seq<T>, rest: (A, B, seq<T>)): (A, B, seq<T>) {
    (rest.0, rest.1, first + rest.2)
  }

  lemma PrependNone<A, B, T>(rest: (A, B, seq<T>))
    ensures Prepend([], rest) == rest
  {
    assert [] + rest.2 == rest.2;
  }
}
