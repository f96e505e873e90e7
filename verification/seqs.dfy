/**
 * The list built-ins the strategy leans on: `min(xs)`, `xs.index(v)` and
 * `xs[::-1]`.
 */
module Seqs {

  /** `min(xs)`: an element of `xs` no larger than any other. */
  function MinOf(xs: seq<real>): (m: real)
    requires |xs| > 0
    ensures exists i :: 0 <= i < |xs| && xs[i] == m
    ensures forall i :: 0 <= i < |xs| ==> m <= xs[i]
  {
    if |xs| == 1 then xs[0]
    else
      var rest := MinOf(xs[1..]);
      assert forall i :: 1 <= i < |xs| ==> xs[i] == xs[1..][i - 1];
      if xs[0] <= rest then xs[0] else rest
  }

  /** `xs.index(v)`: the position of the first occurrence of `v`. */
  function FirstIndex<T(==)>(xs: seq<T>, v: T): (k: nat)
    requires v in xs
    ensures k < |xs| && xs[k] == v
    ensures forall j :: 0 <= j < k ==> xs[j] != v
  {
    if xs[0] == v then 0 else 1 + FirstIndex(xs[1..], v)
  }

  /** The first occurrence is the only position with `v` and nothing equal to `v` before it. */
  lemma FirstIndexUnique<T>(xs: seq<T>, v: T, k: nat)
    requires k < |xs| && xs[k] == v
    requires forall j :: 0 <= j < k ==> xs[j] != v
    ensures FirstIndex(xs, v) == k
  {
  }

  /** `xs[::-1]`: the last element first, then the rest reversed. */
  function Reverse<T>(xs: seq<T>): (r: seq<T>)
    ensures |r| == |xs|
    ensures forall i :: 0 <= i < |xs| ==> r[i] == xs[|xs| - 1 - i]
  {
    if xs == [] then [] else [xs[|xs| - 1]] + Reverse(xs[..|xs| - 1])
  }

  /** Concatenation regroups freely; the trace proofs use it instead of element-wise reasoning. */
  lemma AppendAssoc<T>(a: seq<T>, b: seq<T>, c: seq<T>)
    ensures a + (b + c) == (a + b) + c
  {
  }

  /** Appending nothing leaves a sequence as it is. */
  lemma AppendEmpty<T>(a: seq<T>)
    ensures a + [] == a
  {
  }
}
