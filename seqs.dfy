/** Positions within a sequence: the increasing positions a test accepts, and the elements at
    given positions. Row selection, column dropping and the region lists are all stated with
    these. */
module Seqs {
  predicate Increasing(idx: seq<nat>) {
    forall k, l :: 0 <= k < l < |idx| ==> idx[k] < idx[l]
  }

  /** The positions, in increasing order, of the elements that `keep` accepts. */
  function Matching<T>(vs: seq<T>, keep: T -> bool): (idx: seq<nat>)
    ensures Increasing(idx)
    ensures forall k :: 0 <= k < |idx| ==> idx[k] < |vs| && keep(vs[idx[k]])
    ensures forall i :: 0 <= i < |vs| && keep(vs[i]) ==> i in idx
    ensures |idx| <= |vs|
  {
    if |vs| == 0 then []
    else
      var prev := Matching(vs[..|vs| - 1], keep);
      assert forall i :: 0 <= i < |vs| - 1 ==> vs[..|vs| - 1][i] == vs[i];
      if keep(vs[|vs| - 1]) then prev + [|vs| - 1] else prev
  }

  /** The position of the first occurrence of `x` in `xs`. */
  function FirstAt<T(==)>(xs: seq<T>, x: T): (i: nat)
    requires x in xs
    ensures i < |xs| && xs[i] == x
    ensures forall j :: 0 <= j < i ==> xs[j] != x
  {
    if xs[0] == x then 0 else 1 + FirstAt(xs[1..], x)
  }

  /** Appending an element does not move the first occurrence of one already present. */
  lemma FirstAtFront<T>(xs: seq<T>, y: T)
    requires |xs| > 0 && y in xs[..|xs| - 1]
    ensures y in xs && FirstAt(xs, y) == FirstAt(xs[..|xs| - 1], y)
  {
    var front := xs[..|xs| - 1];
    var f := FirstAt(front, y);
    assert xs[f] == front[f] == y;
    var g := FirstAt(xs, y);
    assert g <= f;
    assert front[g] == xs[g];
  }

  /** The elements at the given positions, in that order. */
  function Gather<T>(vs: seq<T>, idx: seq<nat>): (r: seq<T>)
    requires forall k :: 0 <= k < |idx| ==> idx[k] < |vs|
    ensures |r| == |idx| && forall k :: 0 <= k < |idx| ==> r[k] == vs[idx[k]]
  {
    seq(|idx|, k requires 0 <= k < |idx| => vs[idx[k]])
  }

  function Range(n: nat): (idx: seq<nat>)
    ensures |idx| == n && forall k :: 0 <= k < n ==> idx[k] == k
  {
    seq(n, k requires 0 <= k < n => k)
  }

  /** Increasing positions taken within increasing positions stay increasing. */
  lemma GatherIncreasing(a: seq<nat>, b: seq<nat>)
    requires forall k :: 0 <= k < |b| ==> b[k] < |a|
    requires Increasing(a) && Increasing(b)
    ensures Increasing(Gather(a, b))
  {
    var c := Gather(a, b);
    forall k, l | 0 <= k < l < |c| ensures c[k] < c[l] {
      assert b[k] < b[l];
    }
  }
}
