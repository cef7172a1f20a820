/** Predecessor links as the searches leave them, the chain they describe,
    and sequence reversal. */
module Paths {
  import opened Options

  /** Every link points to a valid index of strictly lower rank: the links are
      acyclic, so following them from any flight ends at a flight with no
      predecessor. */
  ghost predicate PrevRanked(prev: seq<Option<nat>>, rank: seq<nat>) {
    && |prev| == |rank|
    && forall v :: 0 <= v < |prev| && prev[v].Some? ==>
         prev[v].value < |prev| && rank[prev[v].value] < rank[v]
  }

  /** The chain of predecessors ending at `v`, oldest first: it starts at a
      flight without predecessor, ends at `v`, and each element is the
      recorded predecessor of the next. */
  ghost function Walk(prev: seq<Option<nat>>, rank: seq<nat>, v: nat): (w: seq<nat>)
    requires PrevRanked(prev, rank) && v < |prev|
    ensures forall k :: 0 <= k < |w| ==> w[k] < |prev|
    ensures |w| >= 1 && w[|w| - 1] == v && prev[w[0]].None?
    ensures forall k {:trigger prev[w[k]]} :: 0 < k < |w| ==> prev[w[k]] == Some(w[k - 1])
    decreases rank[v]
  {
    match prev[v]
    case None => [v]
    case Some(u) => Walk(prev, rank, u) + [v]
  }

  /** The walk is determined by the links alone, whatever ranking witnesses
      their acyclicity. */
  lemma {:induction false} WalkIndependentOfRank(prev: seq<Option<nat>>, rank: seq<nat>, rank': seq<nat>, v: nat)
    requires PrevRanked(prev, rank) && PrevRanked(prev, rank') && v < |prev|
    ensures Walk(prev, rank, v) == Walk(prev, rank', v)
    decreases rank[v]
  {
    if prev[v].Some? {
      WalkIndependentOfRank(prev, rank, rank', prev[v].value);
    }
  }

  /** Moving the last flight of a walk onto a collected list kept in reverse
      order leaves the overall sequence unchanged. */
  lemma WalkStep(prev: seq<Option<nat>>, rank: seq<nat>, v: nat, taken: seq<nat>)
    requires PrevRanked(prev, rank) && v < |prev|
    ensures Walk(prev, rank, v) + Reversed(taken)
         == (if prev[v].Some? then Walk(prev, rank, prev[v].value) else []) + Reversed(taken + [v])
  {
    ReversedSnoc(taken, v);
  }

  /** Reversal, peeling the last element off first. */
  function Reversed<T>(s: seq<T>): (r: seq<T>)
    ensures |r| == |s|
  {
    if s == [] then [] else [s[|s| - 1]] + Reversed(s[..|s| - 1])
  }

  lemma {:induction false} ReversedAt<T>(s: seq<T>, k: int)
    requires 0 <= k < |s|
    ensures Reversed(s)[k] == s[|s| - 1 - k]
  {
    if k > 0 {
      ReversedAt(s[..|s| - 1], k - 1);
    }
  }

  lemma ReversedSnoc<T>(s: seq<T>, x: T)
    ensures Reversed(s + [x]) == [x] + Reversed(s)
  {
    assert (s + [x])[..|s|] == s;
  }

  /** The two-pointer exchange loop reverses `path`. */
  method ReverseInPlace<T>(path0: seq<T>) returns (path: seq<T>)
    ensures path == Reversed(path0)
  {
    path := path0;
    var n := |path|;
    var i, j := 0, n - 1;
    while i < j
      invariant |path| == n && 0 <= i && j == n - 1 - i && i <= j + 1
      invariant forall k :: 0 <= k < i ==> path[k] == path0[n - 1 - k] && path[n - 1 - k] == path0[k]
      invariant forall k :: i <= k <= j ==> path[k] == path0[k]
    {
      path := path[i := path[j]][j := path[i]];
      i := i + 1;
      j := j - 1;
    }
    forall k | 0 <= k < n
      ensures path[k] == Reversed(path0)[k]
    {
      ReversedAt(path0, k);
    }
  }
}
