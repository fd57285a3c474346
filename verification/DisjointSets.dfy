/**
 The two union-find variants of the identity authority (recursive path compression in candidate
 grouping, two-pass compression in component bundling), and what joining every linked pair yields.
 */
module DisjointSets {

  /** The pair the nested loops look at: the lower index first. */
  predicate Adjacent(edge: (nat, nat) -> bool, i: nat, j: nat) {
    if i < j then edge(i, j) else j < i && edge(j, i)
  }

  /** A sequence of indices below n in which neighbours are adjacent. */
  ghost predicate Chain(edge: (nat, nat) -> bool, n: nat, path: seq<nat>) {
    && path != []
    && (forall k :: 0 <= k < |path| ==> path[k] < n)
    && (forall k :: 0 < k < |path| ==> Adjacent(edge, path[k - 1], path[k]))
  }

  ghost predicate ChainFrom(edge: (nat, nat) -> bool, n: nat, path: seq<nat>, i: nat, j: nat) {
    Chain(edge, n, path) && path[0] == i && path[|path| - 1] == j
  }

  ghost predicate Linked(edge: (nat, nat) -> bool, n: nat, i: nat, j: nat) {
    exists path :: ChainFrom(edge, n, path, i, j)
  }

  lemma LinkedSelf(edge: (nat, nat) -> bool, n: nat, i: nat)
    requires i < n
    ensures Linked(edge, n, i, i)
  {
    assert ChainFrom(edge, n, [i], i, i);
  }

  lemma LinkedStep(edge: (nat, nat) -> bool, n: nat, i: nat, j: nat)
    requires i < n && j < n && Adjacent(edge, i, j)
    ensures Linked(edge, n, i, j)
  {
    assert ChainFrom(edge, n, [i, j], i, j);
  }

  lemma LinkedTransitive(edge: (nat, nat) -> bool, n: nat, i: nat, j: nat, k: nat)
    requires Linked(edge, n, i, j) && Linked(edge, n, j, k)
    ensures Linked(edge, n, i, k)
  {
    var p :| ChainFrom(edge, n, p, i, j);
    var q :| ChainFrom(edge, n, q, j, k);
    assert ChainFrom(edge, n, p + q[1..], i, k);
  }

  /** The element i hangs below its root; rank strictly increases towards the root. */
  ghost predicate Node(parent: seq<nat>, rep: seq<nat>, rank: seq<nat>, i: nat)
    requires |rep| == |rank| == |parent| && i < |parent|
  {
    && parent[i] < |parent| && rep[i] < |parent|
    && rep[parent[i]] == rep[i]
    && parent[rep[i]] == rep[i]
    && (parent[i] == i ==> rep[i] == i)
    && (parent[i] != i ==> rank[i] < rank[parent[i]])
    && (rep[i] != i ==> rank[i] < rank[rep[i]])
  }

  /** parent is a forest whose trees have the roots rep; following parents cannot cycle. */
  ghost predicate Forest(parent: seq<nat>, rep: seq<nat>, rank: seq<nat>) {
    && |rep| == |rank| == |parent|
    && (forall i :: 0 <= i < |parent| ==> Node(parent, rep, rank, i))
  }

  /** How far i's rank lies below its root's. */
  ghost function Below(rep: seq<nat>, rank: seq<nat>, i: nat): nat {
    if |rep| == |rank| && i < |rep| && rep[i] < |rank| && rank[i] <= rank[rep[i]] then rank[rep[i]] - rank[i] else 0
  }

  /** The class of from joins the class of into; every other class is untouched. */
  ghost predicate Merges(before: seq<nat>, after: seq<nat>, from: nat, into: nat) {
    |after| == |before| && forall i :: 0 <= i < |before| ==> after[i] == if before[i] == from then into else before[i]
  }

  /** Pointing an element straight at its root keeps the forest. */
  lemma CompressForest(parent: seq<nat>, rep: seq<nat>, rank: seq<nat>, i: nat)
    requires Forest(parent, rep, rank) && i < |parent|
    ensures Forest(parent[i := rep[i]], rep, rank)
  {
    assert Node(parent, rep, rank, i);
    assert Node(parent, rep, rank, rep[i]);
    var parent' := parent[i := rep[i]];
    forall k | 0 <= k < |parent|
      ensures Node(parent', rep, rank, k)
    {
      assert Node(parent, rep, rank, k);
    }
  }

  /** Hanging one root under another keeps the forest, with the upper root's rank raised. */
  lemma AttachForest(parent: seq<nat>, rep: seq<nat>, rank: seq<nat>, child: nat, root: nat,
                     rep': seq<nat>, rank': seq<nat>)
    requires Forest(parent, rep, rank) && child < |parent| && root < |parent|
    requires rep[child] == child && rep[root] == root && child != root
    requires Merges(rep, rep', child, root)
    requires rank' == rank[root := if rank[root] > rank[child] then rank[root] else rank[child] + 1]
    ensures Forest(parent[child := root], rep', rank')
  {
    assert Node(parent, rep, rank, child);
    assert Node(parent, rep, rank, root);
    var parent' := parent[child := root];
    forall k | 0 <= k < |parent|
      ensures Node(parent', rep', rank', k)
    {
      assert Node(parent, rep, rank, k);
    }
  }

  class UnionFind {
    const parent: array<nat>
    ghost var rep: seq<nat>
    ghost var rank: seq<nat>

    ghost predicate Valid()
      reads this, parent
    {
      Forest(parent[..], rep, rank)
    }

    /** Every element starts as its own root. */
    constructor (n: nat)
      ensures Valid() && fresh(parent) && parent.Length == n
      ensures |rep| == n && forall i :: 0 <= i < n ==> rep[i] == i
    {
      parent := new nat[n](i => i);
      rep := seq(n, i => i);
      rank := seq(n, _ => 0);
    }

    /** Recursive find: compresses the path, keeps every class and the forest. */
    method Root(index: nat) returns (root: nat)
      requires Valid() && index < parent.Length
      modifies parent
      ensures Valid() && rep == old(rep) && rank == old(rank)
      ensures root == rep[index] && root < parent.Length && rep[root] == root && parent[index] == root
      decreases Below(rep, rank, index)
    {
      assert Node(parent[..], rep, rank, index);
      if parent[index] != index {
        var up := Root(parent[index]);
        assert Node(parent[..], rep, rank, index);
        CompressForest(parent[..], rep, rank, index);
        ghost var compressed := parent[..][index := up];
        parent[index] := up;
        assert parent[..] == compressed;
      }
      root := parent[index];
    }

    /** Two-pass find: climb to the root, then point the whole path at it. */
    method FindRoot(start: nat) returns (root: nat)
      requires Valid() && start < parent.Length
      modifies parent
      ensures Valid() && rep == old(rep) && rank == old(rank)
      ensures root == rep[start] && root < parent.Length && rep[root] == root && parent[start] == root
    {
      root := start;
      assert Node(parent[..], rep, rank, start);
      while parent[root] != root
        invariant root < parent.Length && rep[root] == rep[start] && Node(parent[..], rep, rank, root)
        decreases Below(rep, rank, root)
      {
        root := parent[root];
        assert Node(parent[..], rep, rank, root);
      }
      var node: nat := start;
      while parent[node] != root
        invariant Valid() && rep == old(rep) && rank == old(rank) && |rep| == |rank| == parent.Length
        invariant node < parent.Length && rep[node] == root && root < parent.Length && parent[root] == root
        invariant node == start || parent[start] == root
        decreases Below(rep, rank, node)
      {
        var next := parent[node];
        assert Node(parent[..], rep, rank, node);
        assert Node(parent[..], rep, rank, next);
        CompressForest(parent[..], rep, rank, node);
        ghost var compressed := parent[..][node := root];
        parent[node] := root;
        assert parent[..] == compressed;
        node := next;
      }
    }

    /** Hangs one root under another: their classes become one, the others are untouched. */
    method Attach(child: nat, root: nat)
      requires Valid() && child < parent.Length && root < parent.Length
      requires rep[child] == child && rep[root] == root && child != root
      modifies this, parent
      ensures Valid() && Merges(old(rep), rep, child, root)
    {
      ghost var reps := rep;
      ghost var reps' := seq(|reps|, i requires 0 <= i < |reps| => if reps[i] == child then root else reps[i]);
      ghost var ranks' := rank[root := if rank[root] > rank[child] then rank[root] else rank[child] + 1];
      ghost var attached := parent[..][child := root];
      AttachForest(parent[..], rep, rank, child, root, reps', ranks');
      parent[child] := root;
      rep, rank := reps', ranks';
      assert parent[..] == attached;
    }

    /** Candidate grouping: the right root goes under the left one. */
    method Join(lhs: nat, rhs: nat)
      requires Valid() && lhs < parent.Length && rhs < parent.Length
      modifies this, parent
      ensures Valid() && Merges(old(rep), rep, old(rep)[rhs], old(rep)[lhs])
    {
      var l := Root(lhs);
      var r := Root(rhs);
      if l != r { Attach(r, l); }
    }

    /** Component bundling: the left root goes under the right one. */
    method Bundle(lhs: nat, rhs: nat)
      requires Valid() && lhs < parent.Length && rhs < parent.Length
      modifies this, parent
      ensures Valid() && Merges(old(rep), rep, old(rep)[lhs], old(rep)[rhs])
    {
      var l := FindRoot(lhs);
      var r := FindRoot(rhs);
      if l != r { Attach(l, r); }
    }
  }

  // ---------------------------------------------------------------- joining every linked pair

  /** Equal representatives only ever come from a chain of links. */
  ghost predicate Sound(edge: (nat, nat) -> bool, rep: seq<nat>) {
    forall i, j {:trigger Linked(edge, |rep|, i, j)} ::
      0 <= i < |rep| && 0 <= j < |rep| && rep[i] == rep[j] ==> Linked(edge, |rep|, i, j)
  }

  /** The linked pairs visited before (row, col) already share a representative. */
  ghost predicate JoinedBefore(edge: (nat, nat) -> bool, rep: seq<nat>, row: int, col: int) {
    forall i: nat, j: nat :: i < j < |rep| && (i < row || (i == row && j < col)) && edge(i, j) ==> rep[i] == rep[j]
  }

  /** The classes are exactly the chains. */
  ghost predicate ClassesAreChains(edge: (nat, nat) -> bool, rep: seq<nat>) {
    forall i, j :: 0 <= i < |rep| && 0 <= j < |rep| ==> (rep[i] == rep[j] <==> Linked(edge, |rep|, i, j))
  }

  lemma MergeSound(edge: (nat, nat) -> bool, before: seq<nat>, after: seq<nat>, a: nat, b: nat)
    requires Sound(edge, before) && a < |before| && b < |before| && Adjacent(edge, a, b)
    requires Merges(before, after, before[b], before[a])
    ensures Sound(edge, after) && after[a] == after[b]
  {
    var n := |before|;
    forall i, j | 0 <= i < n && 0 <= j < n && after[i] == after[j]
      ensures Linked(edge, n, i, j)
    {
      LinkedStep(edge, n, a, b);
      LinkedStep(edge, n, b, a);
      if before[i] == before[j] {
      } else if before[i] == before[b] {
        LinkedTransitive(edge, n, i, b, a);
        LinkedTransitive(edge, n, i, a, j);
      } else {
        LinkedTransitive(edge, n, i, a, b);
        LinkedTransitive(edge, n, i, b, j);
      }
    }
  }

  lemma MergeKeepsJoined(edge: (nat, nat) -> bool, before: seq<nat>, after: seq<nat>, row: nat, col: nat, from: nat, into: nat)
    requires JoinedBefore(edge, before, row, col) && row < col < |before|
    requires Merges(before, after, from, into) && after[row] == after[col]
    ensures JoinedBefore(edge, after, row, col + 1)
  {
  }

  lemma {:induction false} ChainMeansJoined(edge: (nat, nat) -> bool, rep: seq<nat>, path: seq<nat>)
    requires Chain(edge, |rep|, path)
    requires JoinedBefore(edge, rep, |rep|, 0)
    ensures rep[path[0]] == rep[path[|path| - 1]]
  {
    if |path| > 1 {
      ChainMeansJoined(edge, rep, path[1..]);
      assert path[1..][0] == path[1];
      assert Adjacent(edge, path[1 - 1], path[1]);
    }
  }

  lemma AllJoined(edge: (nat, nat) -> bool, rep: seq<nat>)
    requires Sound(edge, rep) && JoinedBefore(edge, rep, |rep|, 0)
    ensures ClassesAreChains(edge, rep)
  {
    forall i, j | 0 <= i < |rep| && 0 <= j < |rep| && Linked(edge, |rep|, i, j)
      ensures rep[i] == rep[j]
    {
      var path :| ChainFrom(edge, |rep|, path, i, j);
      ChainMeansJoined(edge, rep, path);
    }
  }

  lemma IdentitySound(edge: (nat, nat) -> bool, rep: seq<nat>)
    requires forall i :: 0 <= i < |rep| ==> rep[i] == i
    ensures Sound(edge, rep)
  {
    forall i | 0 <= i < |rep| ensures Linked(edge, |rep|, i, i) { LinkedSelf(edge, |rep|, i); }
  }

  /** The grouping loops: afterwards two elements share a root exactly when a chain links them. */
  method JoinLinked(sets: UnionFind, edge: (nat, nat) -> bool)
    requires sets.Valid() && forall i :: 0 <= i < |sets.rep| ==> sets.rep[i] == i
    modifies sets, sets.parent
    ensures sets.Valid() && ClassesAreChains(edge, sets.rep)
  {
    var n := sets.parent.Length;
    IdentitySound(edge, sets.rep);
    for i := 0 to n
      invariant sets.Valid() && |sets.rep| == n && Sound(edge, sets.rep) && JoinedBefore(edge, sets.rep, i, 0)
    {
      for j := i + 1 to n
        invariant sets.Valid() && |sets.rep| == n && Sound(edge, sets.rep) && JoinedBefore(edge, sets.rep, i, j)
      {
        if edge(i, j) {
          ghost var before := sets.rep;
          sets.Join(i, j);
          MergeSound(edge, before, sets.rep, i, j);
          MergeKeepsJoined(edge, before, sets.rep, i, j, before[j], before[i]);
        }
      }
    }
    AllJoined(edge, sets.rep);
  }

  /** The bundling loops, with the two-pass find and the opposite direction, yield the same classes. */
  method BundleLinked(sets: UnionFind, edge: (nat, nat) -> bool)
    requires sets.Valid() && forall i :: 0 <= i < |sets.rep| ==> sets.rep[i] == i
    modifies sets, sets.parent
    ensures sets.Valid() && ClassesAreChains(edge, sets.rep)
  {
    var n := sets.parent.Length;
    IdentitySound(edge, sets.rep);
    for i := 0 to n
      invariant sets.Valid() && |sets.rep| == n && Sound(edge, sets.rep) && JoinedBefore(edge, sets.rep, i, 0)
    {
      for j := i + 1 to n
        invariant sets.Valid() && |sets.rep| == n && Sound(edge, sets.rep) && JoinedBefore(edge, sets.rep, i, j)
      {
        if edge(i, j) {
          ghost var before := sets.rep;
          sets.Bundle(i, j);
          MergeSound(edge, before, sets.rep, j, i);
          MergeKeepsJoined(edge, before, sets.rep, i, j, before[i], before[j]);
        }
      }
    }
    AllJoined(edge, sets.rep);
  }
}
