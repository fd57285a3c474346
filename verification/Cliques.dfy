/**
 The maximal-clique enumerator of the cargo identity authority, over an arbitrary symmetric,
 irreflexive compatibility matrix.
 */
module Cliques {

  type Matrix = seq<seq<bool>>

  predicate Compatible(m: Matrix, v: nat, w: nat) {
    v < |m| && w < |m[v]| && m[v][w]
  }

  /** What both callers build: a square symmetric matrix with a false diagonal. */
  ghost predicate CompatibilityMatrix(m: Matrix) {
    && (forall v :: 0 <= v < |m| ==> |m[v]| == |m|)
    && (forall v: nat :: !Compatible(m, v, v))
    && (forall v: nat, w: nat :: Compatible(m, v, w) ==> Compatible(m, w, v))
  }

  function Elems(s: seq<nat>): set<nat> {
    set v | v in s
  }

  ghost predicate Distinct(s: seq<nat>) {
    forall i, j :: 0 <= i < j < |s| ==> s[i] != s[j]
  }

  ghost predicate IsClique(m: Matrix, c: set<nat>) {
    && (forall v :: v in c ==> v < |m|)
    && (forall v, w :: v in c && w in c && v != w ==> Compatible(m, v, w))
  }

  /** u is compatible with every member of c. */
  ghost predicate Joins(m: Matrix, u: nat, c: set<nat>) {
    u < |m| && forall w :: w in c ==> Compatible(m, u, w)
  }

  ghost predicate IsMaximalClique(m: Matrix, c: set<nat>) {
    IsClique(m, c) && forall u: nat :: !Joins(m, u, c)
  }

  /** A maximal clique that contains r and stays inside r + p. */
  ghost predicate Wanted(m: Matrix, c: set<nat>, r: set<nat>, p: set<nat>) {
    IsMaximalClique(m, c) && r <= c <= r + p
  }

  ghost predicate Touches(c: set<nat>, done: set<nat>) {
    exists v :: v in c && v in done
  }

  ghost predicate Listed(found: seq<seq<nat>>, c: set<nat>) {
    exists i :: 0 <= i < |found| && Elems(found[i]) == c
  }

  /** Two list positions never describe the same clique. */
  ghost predicate NoRepeats(found: seq<seq<nat>>) {
    && (forall i :: 0 <= i < |found| ==> Distinct(found[i]))
    && (forall i, j :: 0 <= i < j < |found| ==> Elems(found[i]) != Elems(found[j]))
  }

  /** found lists exactly the wanted cliques, each once. */
  ghost predicate Enumerates(m: Matrix, found: seq<seq<nat>>, r: set<nat>, p: set<nat>) {
    && NoRepeats(found)
    && (forall i :: 0 <= i < |found| ==> Wanted(m, Elems(found[i]), r, p))
    && (forall c: set<nat> :: Wanted(m, c, r, p) ==> Listed(found, c))
  }

  /** The same, restricted to cliques that contain one of the vertices already branched on. */
  ghost predicate EnumeratesThrough(m: Matrix, found: seq<seq<nat>>, r: set<nat>, p: set<nat>, done: set<nat>) {
    && NoRepeats(found)
    && (forall i :: 0 <= i < |found| ==> Wanted(m, Elems(found[i]), r, p) && Touches(Elems(found[i]), done))
    && (forall c: set<nat> :: Wanted(m, c, r, p) && Touches(c, done) ==> Listed(found, c))
  }

  /** The state the recursion keeps: p and x together are exactly the vertices that join the clique r. */
  ghost predicate Frontier(m: Matrix, r: seq<nat>, p: seq<nat>, x: seq<nat>) {
    && CompatibilityMatrix(m)
    && Distinct(r) && Distinct(p)
    && IsClique(m, Elems(r))
    && Elems(p) !! Elems(x)
    && (forall u: nat :: u in Elems(p) + Elems(x) <==> Joins(m, u, Elems(r)))
  }

  /** The members of s compatible with v, in order. */
  function Neighbours(m: Matrix, v: nat, s: seq<nat>): (n: seq<nat>)
    ensures forall w :: w in n <==> w in s && Compatible(m, v, w)
    ensures |n| <= |s|
  {
    if s == [] then []
    else if Compatible(m, v, s[0]) then [s[0]] + Neighbours(m, v, s[1..])
    else Neighbours(m, v, s[1..])
  }

  lemma {:induction false} NeighboursDistinct(m: Matrix, v: nat, s: seq<nat>)
    requires Distinct(s)
    ensures Distinct(Neighbours(m, v, s))
  {
    if s != [] {
      assert s[0] !in s[1..];
      NeighboursDistinct(m, v, s[1..]);
    }
  }

  method MaximalCliques(m: Matrix, r: seq<nat>, p: seq<nat>, x: seq<nat>) returns (found: seq<seq<nat>>)
    requires Frontier(m, r, p, x)
    ensures Enumerates(m, found, Elems(r), Elems(p))
    decreases |p|
  {
    if p == [] && x == [] {
      LeafIsMaximal(m, r, p, x);
      return [r];
    }
    found := [];
    var rest, seen := p, x;
    for k := 0 to |p|
      invariant rest == p[k..] && seen == x + p[..k]
      invariant EnumeratesThrough(m, found, Elems(r), Elems(p), Elems(p[..k]))
    {
      var v := p[k];
      var pNext := Neighbours(m, v, rest);
      var xNext := Neighbours(m, v, seen);
      BranchFrontier(m, r, p, x, k);
      var branch := MaximalCliques(m, r + [v], pNext, xNext);
      BranchCovers(m, r, p, x, k, found, branch);
      found := found + branch;
      rest := rest[1..];
      seen := seen + [v];
      assert seen == x + p[..k + 1];
    }
    assert p[..|p|] == p;
    EveryBranchTaken(m, r, p, x, found);
  }

  lemma LeafIsMaximal(m: Matrix, r: seq<nat>, p: seq<nat>, x: seq<nat>)
    requires Frontier(m, r, p, x) && p == [] && x == []
    ensures Enumerates(m, [r], Elems(r), Elems(p))
  {
    assert forall u: nat :: u !in Elems(p) + Elems(x);
    assert Wanted(m, Elems(r), Elems(r), Elems(p));
    assert Elems([r][0]) == Elems(r);
    forall c: set<nat> | Wanted(m, c, Elems(r), Elems(p))
      ensures Listed([r], c)
    {
      assert c == Elems([r][0]);
    }
  }

  lemma {:induction false} BranchFrontier(m: Matrix, r: seq<nat>, p: seq<nat>, x: seq<nat>, k: nat)
    requires Frontier(m, r, p, x) && k < |p|
    ensures Frontier(m, r + [p[k]], Neighbours(m, p[k], p[k..]), Neighbours(m, p[k], x + p[..k]))
    ensures |Neighbours(m, p[k], p[k..])| < |p|
  {
    var v := p[k];
    var rest, seen := p[k..], x + p[..k];
    var p', x' := Neighbours(m, v, rest), Neighbours(m, v, seen);
    assert v in Elems(p) && Joins(m, v, Elems(r)) && !Compatible(m, v, v);
    assert Elems(r + [v]) == Elems(r) + {v};
    assert Distinct(r + [v]) by { assert v !in Elems(r); }
    NeighboursDistinct(m, v, rest);
    assert rest[1..] == p[k + 1..] && p' == Neighbours(m, v, rest[1..]);
    BranchJoins(m, r, p, x, k);
    SplitDisjoint(p, x, k);
    assert Elems(p') <= Elems(rest) && Elems(x') <= Elems(seen);
  }

  lemma {:induction false} BranchJoins(m: Matrix, r: seq<nat>, p: seq<nat>, x: seq<nat>, k: nat)
    requires Frontier(m, r, p, x) && k < |p|
    ensures forall u: nat :: u in Elems(Neighbours(m, p[k], p[k..])) + Elems(Neighbours(m, p[k], x + p[..k]))
              <==> Joins(m, u, Elems(r) + {p[k]})
  {
    var v := p[k];
    assert p == p[..k] + p[k..];
    forall u: nat
      ensures u in Elems(Neighbours(m, v, p[k..])) + Elems(Neighbours(m, v, x + p[..k])) <==> Joins(m, u, Elems(r) + {v})
    {
      assert u in p[k..] || u in x + p[..k] <==> u in Elems(p) + Elems(x);
      JoinsOneMore(m, u, Elems(r), v);
    }
  }

  lemma JoinsOneMore(m: Matrix, u: nat, c: set<nat>, v: nat)
    requires CompatibilityMatrix(m)
    ensures Joins(m, u, c + {v}) <==> Joins(m, u, c) && Compatible(m, v, u)
  {
    assert Compatible(m, v, u) <==> Compatible(m, u, v);
  }

  lemma SplitDisjoint(p: seq<nat>, x: seq<nat>, k: nat)
    requires Distinct(p) && Elems(p) !! Elems(x) && k <= |p|
    ensures Elems(p[k..]) !! Elems(x + p[..k])
  {
    forall u | u in p[k..]
      ensures u !in x + p[..k]
    {
      assert u in Elems(p) && u !in Elems(x);
    }
  }

  lemma {:induction false} BranchCovers(m: Matrix, r: seq<nat>, p: seq<nat>, x: seq<nat>, k: nat,
                     found: seq<seq<nat>>, branch: seq<seq<nat>>)
    requires Frontier(m, r, p, x) && k < |p|
    requires EnumeratesThrough(m, found, Elems(r), Elems(p), Elems(p[..k]))
    requires Enumerates(m, branch, Elems(r + [p[k]]), Elems(Neighbours(m, p[k], p[k..])))
    ensures EnumeratesThrough(m, found + branch, Elems(r), Elems(p), Elems(p[..k + 1]))
  {
    var v := p[k];
    var R, P, done := Elems(r), Elems(p), Elems(p[..k]);
    var R', P' := Elems(r + [v]), Elems(Neighbours(m, v, p[k..]));
    var all := found + branch;
    assert R' == R + {v} && P' <= P && v in P;
    assert Elems(p[..k + 1]) == done + {v} by { assert p[..k + 1] == p[..k] + [v]; }
    forall c: set<nat> | Wanted(m, c, R', P')
      ensures Wanted(m, c, R, P) && !Touches(c, done) && Touches(c, done + {v})
    {
      FreshBranch(m, r, p, x, k, c);
      assert v in c && v in done + {v};
    }
    forall i | 0 <= i < |all|
      ensures Distinct(all[i]) && Wanted(m, Elems(all[i]), R, P) && Touches(Elems(all[i]), done + {v})
    {
      if i < |found| {
        assert all[i] == found[i];
        assert Touches(Elems(found[i]), done);
      } else {
        assert all[i] == branch[i - |found|];
      }
    }
    forall i, j | 0 <= i < j < |all|
      ensures Elems(all[i]) != Elems(all[j])
    {
      if i < |found| <= j {
        assert all[j] == branch[j - |found|];
        assert Touches(Elems(found[i]), done);
      }
    }
    forall c: set<nat> | Wanted(m, c, R, P) && Touches(c, done + {v})
      ensures Listed(all, c)
    {
      if Touches(c, done) {
        var i :| 0 <= i < |found| && Elems(found[i]) == c;
        assert all[i] == found[i];
      } else {
        RemainingAreNeighbours(m, r, p, k, c);
        var i :| 0 <= i < |branch| && Elems(branch[i]) == c;
        assert all[|found| + i] == branch[i];
      }
    }
  }

  /** A clique found under branch vertex p[k] contains none of the vertices branched on before. */
  lemma {:induction false} FreshBranch(m: Matrix, r: seq<nat>, p: seq<nat>, x: seq<nat>, k: nat, c: set<nat>)
    requires Frontier(m, r, p, x) && k < |p|
    requires Elems(r + [p[k]]) <= c <= Elems(r + [p[k]]) + Elems(Neighbours(m, p[k], p[k..]))
    ensures !Touches(c, Elems(p[..k]))
    ensures p[k] in c
  {
    assert p[k] in r + [p[k]];
    forall u | u in Elems(p[..k])
      ensures u !in c
    {
      assert u in Elems(p) && Joins(m, u, Elems(r)) && !Compatible(m, u, u);
      assert u !in Elems(r);
      assert u !in p[k..];
    }
  }

  lemma {:induction false} RemainingAreNeighbours(m: Matrix, r: seq<nat>, p: seq<nat>, k: nat, c: set<nat>)
    requires CompatibilityMatrix(m) && k < |p|
    requires Wanted(m, c, Elems(r), Elems(p))
    requires p[k] in c && !Touches(c, Elems(p[..k]))
    ensures Wanted(m, c, Elems(r + [p[k]]), Elems(Neighbours(m, p[k], p[k..])))
  {
    var v := p[k];
    forall u | u in c
      ensures u in Elems(r + [v]) + Elems(Neighbours(m, v, p[k..]))
    {
      if u !in r && u != v {
        assert u in p && u !in p[..k];
        assert p == p[..k] + p[k..];
        assert Compatible(m, v, u);
        assert u in Neighbours(m, v, p[k..]);
      }
    }
    assert Elems(r + [v]) == Elems(r) + {v};
  }

  lemma EveryBranchTaken(m: Matrix, r: seq<nat>, p: seq<nat>, x: seq<nat>, found: seq<seq<nat>>)
    requires Frontier(m, r, p, x) && (p != [] || x != [])
    requires EnumeratesThrough(m, found, Elems(r), Elems(p), Elems(p))
    ensures Enumerates(m, found, Elems(r), Elems(p))
  {
    var u := if p != [] then p[0] else x[0];
    assert u in Elems(p) + Elems(x);
    assert Joins(m, u, Elems(r));
    forall c: set<nat> | Wanted(m, c, Elems(r), Elems(p))
      ensures Touches(c, Elems(p))
    {
      assert c != Elems(r);
      var v :| v in c && v !in Elems(r);
      assert v in Elems(p);
    }
  }

  // ---------------------------------------------------------------- the run over all vertices

  function Vertices(n: nat): (s: seq<nat>)
    ensures |s| == n && forall i :: 0 <= i < n ==> s[i] == i
    ensures forall v: nat :: v in s <==> v < n
  {
    if n == 0 then [] else Vertices(n - 1) + [n - 1]
  }

  /** Started on every vertex, the enumeration lists every maximal clique of the matrix exactly once. */
  method AllMaximalCliques(m: Matrix) returns (found: seq<seq<nat>>)
    requires CompatibilityMatrix(m)
    ensures NoRepeats(found)
    ensures forall c: set<nat> :: IsMaximalClique(m, c) <==> Listed(found, c)
  {
    var all := Vertices(|m|);
    assert Frontier(m, [], all, []) by {
      assert Elems([]) == {};
      forall u: nat ensures u in Elems(all) + Elems([]) <==> Joins(m, u, Elems([])) {
        if u < |m| { assert all[u] == u; }
      }
    }
    found := MaximalCliques(m, [], all, []);
    forall c: set<nat>
      ensures IsMaximalClique(m, c) <==> Listed(found, c)
    {
      if IsMaximalClique(m, c) {
        assert forall v :: v in c ==> all[v] == v;
        assert Wanted(m, c, Elems([]), Elems(all));
      }
    }
  }

  // ---------------------------------------------------------------- facts the two consumers rest on

  /** Every clique grows into a maximal one. */
  lemma {:induction false} ExtendClique(m: Matrix, c: set<nat>) returns (big: set<nat>)
    requires CompatibilityMatrix(m) && IsClique(m, c)
    ensures IsMaximalClique(m, big) && c <= big
    decreases |m| - |c|
  {
    if exists u: nat :: Joins(m, u, c) {
      var u: nat :| Joins(m, u, c);
      assert !Compatible(m, u, u);
      assert u !in c;
      CliqueSize(m, c + {u});
      big := ExtendClique(m, c + {u});
    } else {
      big := c;
    }
  }

  lemma CliqueSize(m: Matrix, c: set<nat>)
    requires IsClique(m, c)
    ensures |c| <= |m|
  {
    BoundedSetSize(c, |m|);
  }

  lemma {:induction false} BoundedSetSize(c: set<nat>, n: nat)
    requires forall v :: v in c ==> v < n
    ensures |c| <= n
  {
    if n == 0 {
      assert c == {};
    } else {
      BoundedSetSize(c - {n - 1}, n - 1);
    }
  }

  ghost predicate PairwiseCompatible(m: Matrix, s: set<nat>) {
    forall v, w :: v in s && w in s && v != w ==> Compatible(m, v, w)
  }

  ghost function AllOf(m: Matrix): (all: set<nat>)
    ensures forall v: nat :: v in all <==> v < |m|
  {
    Elems(Vertices(|m|))
  }

  /** There is one maximal clique exactly when the whole matrix is one clique. */
  lemma UniqueMaximalClique(m: Matrix, found: seq<seq<nat>>)
    requires CompatibilityMatrix(m) && NoRepeats(found)
    requires forall c: set<nat> :: IsMaximalClique(m, c) <==> Listed(found, c)
    ensures |found| == 1 <==> PairwiseCompatible(m, AllOf(m))
    ensures |found| == 1 ==> Elems(found[0]) == AllOf(m)
  {
    if |found| == 1 {
      assert Listed(found, Elems(found[0]));
      var only := Elems(found[0]);
      forall v: nat | v < |m|
        ensures v in only
      {
        var c := ExtendClique(m, {v});
        assert Listed(found, c);
      }
      assert only == AllOf(m);
    }
    if PairwiseCompatible(m, AllOf(m)) {
      assert IsMaximalClique(m, AllOf(m)) by {
        forall u: nat ensures !Joins(m, u, AllOf(m)) {
          if u < |m| { assert u in AllOf(m) && !Compatible(m, u, u); }
        }
      }
      forall i | 0 <= i < |found|
        ensures Elems(found[i]) == AllOf(m)
      {
        assert Listed(found, Elems(found[i]));
        MaximalInComplete(m, Elems(found[i]));
      }
      assert Listed(found, AllOf(m));
      assert Elems(found[0]) == Elems(found[|found| - 1]);
    }
  }

  lemma MaximalInComplete(m: Matrix, c: set<nat>)
    requires CompatibilityMatrix(m) && IsMaximalClique(m, c) && PairwiseCompatible(m, AllOf(m))
    ensures c == AllOf(m)
  {
    forall u | u in AllOf(m)
      ensures u in c
    {
      if u !in c {
        assert forall w :: w in c ==> w in AllOf(m);
        assert Joins(m, u, c);
      }
    }
  }

  /** a together with everything compatible with it. */
  ghost function Closed(m: Matrix, a: nat): set<nat> {
    set v | 0 <= v < |m| && (v == a || Compatible(m, a, v))
  }

  /** At most one maximal clique holds a exactly when a's neighbours are pairwise compatible; it is then Closed(m, a). */
  lemma UniqueCliqueThrough(m: Matrix, a: nat)
    requires CompatibilityMatrix(m) && a < |m|
    ensures exists c :: IsMaximalClique(m, c) && a in c
    ensures (forall c, d :: IsMaximalClique(m, c) && IsMaximalClique(m, d) && a in c && a in d ==> c == d)
            <==> PairwiseCompatible(m, Closed(m, a))
    ensures PairwiseCompatible(m, Closed(m, a)) ==>
              forall c :: IsMaximalClique(m, c) && a in c ==> c == Closed(m, a)
  {
    var one := ExtendClique(m, {a});
    assert IsMaximalClique(m, one) && a in one;
    if PairwiseCompatible(m, Closed(m, a)) {
      forall c | IsMaximalClique(m, c) && a in c
        ensures c == Closed(m, a)
      {
        CliqueInsideClosed(m, a, c);
        forall u | u in Closed(m, a)
          ensures u in c
        {
          if u !in c {
            assert Joins(m, u, c);
          }
        }
      }
    } else {
      var v, w :| v in Closed(m, a) && w in Closed(m, a) && v != w && !Compatible(m, v, w);
      assert v != a && w != a;
      var c := ExtendClique(m, {a, v});
      var d := ExtendClique(m, {a, w});
      assert w !in c;
      assert IsMaximalClique(m, c) && IsMaximalClique(m, d) && a in c && a in d && c != d;
    }
  }

  lemma CliqueInsideClosed(m: Matrix, a: nat, c: set<nat>)
    requires IsClique(m, c) && a in c
    ensures c <= Closed(m, a)
  {
  }
}
