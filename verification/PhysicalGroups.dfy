/**
 Grouping of the frame's cargo candidates: candidates belong together exactly when a chain of
 shared component ids links them.
 */
module PhysicalGroups {
  import DisjointSets
  import Sorting

  /** finite stands for the finiteness, positivity and support tests on the candidate's measurements. */
  datatype Candidate = Candidate(id: nat, components: seq<nat>, finite: bool)

  datatype Group = Group(components: seq<nat>, members: seq<Candidate>)

  predicate Below(a: nat, b: nat) { a < b }

  ghost predicate Ascending(ids: seq<nat>) { Sorting.Increasing(Below, ids) }

  // ---------------------------------------------------------------- canonical component lists

  function InsertOnce(x: nat, ids: seq<nat>): (r: seq<nat>)
    requires Ascending(ids)
    ensures Ascending(r) && forall y :: y in r <==> y == x || y in ids
  {
    if ids == [] then [x]
    else if x == ids[0] then ids
    else if x < ids[0] then
      assert forall y :: y in ids ==> Below(x, y) by { assert forall k :: 0 < k < |ids| ==> Below(ids[0], ids[k]); }
      [x] + ids
    else
      var tail := InsertOnce(x, ids[1..]);
      assert forall y :: y in ids[1..] ==> Below(ids[0], y);
      [ids[0]] + tail
  }

  /** Sorted without repeats, same ids. */
  function CanonicalMembers(ids: seq<nat>): (r: seq<nat>)
    ensures Ascending(r) && forall y :: y in r <==> y in ids
  {
    if ids == [] then [] else InsertOnce(ids[0], CanonicalMembers(ids[1..]))
  }

  predicate Accepted(c: Candidate) { c.finite && c.components != [] }

  ghost predicate AllAccepted(valid: seq<Candidate>) {
    forall k :: 0 <= k < |valid| ==> Accepted(valid[k])
  }

  function Canonicalise(): Candidate -> Candidate {
    (c: Candidate) => c.(components := CanonicalMembers(c.components))
  }

  function Keeps(): Candidate -> bool { (c: Candidate) => Accepted(Canonicalise()(c)) }

  /** The accepted candidates in order, each with its canonical component list. */
  function Valid(candidates: seq<Candidate>): seq<Candidate> {
    Sorting.Collected(candidates, Keeps(), Canonicalise())
  }

  lemma {:induction false} ValidAccepted(candidates: seq<Candidate>)
    ensures AllAccepted(Valid(candidates))
  {
    if candidates != [] {
      ValidAccepted(candidates[..|candidates| - 1]);
    }
  }

  method Prepare(candidates: seq<Candidate>) returns (valid: seq<Candidate>)
    ensures valid == Valid(candidates) && AllAccepted(valid)
  {
    valid := [];
    for k := 0 to |candidates|
      invariant valid == Valid(candidates[..k])
    {
      assert candidates[..k + 1][..k] == candidates[..k];
      var c := candidates[k].(components := CanonicalMembers(candidates[k].components));
      if Accepted(c) { valid := valid + [c]; }
    }
    assert candidates[..|candidates|] == candidates;
    ValidAccepted(candidates);
  }

  // ---------------------------------------------------------------- chains of shared components

  predicate Overlaps(a: Candidate, b: Candidate) {
    exists x | x in a.components :: x in b.components
  }

  ghost predicate Chain(valid: seq<Candidate>, path: seq<Candidate>, a: Candidate, b: Candidate) {
    && path != [] && path[0] == a && path[|path| - 1] == b
    && (forall k :: 0 <= k < |path| ==> path[k] in valid)
    && (forall k :: 0 < k < |path| ==> Overlaps(path[k - 1], path[k]))
  }

  /** A chain of candidates, neighbours sharing a component, leads from a to b. */
  ghost predicate Linked(valid: seq<Candidate>, a: Candidate, b: Candidate) {
    exists path :: Chain(valid, path, a, b)
  }

  function Edge(valid: seq<Candidate>): (nat, nat) -> bool {
    (i: nat, j: nat) => i < |valid| && j < |valid| && Overlaps(valid[i], valid[j])
  }

  lemma ChainOfIndices(valid: seq<Candidate>, path: seq<nat>, i: nat, j: nat)
    requires DisjointSets.ChainFrom(Edge(valid), |valid|, path, i, j)
    ensures Linked(valid, valid[i], valid[j])
  {
    var values := seq(|path|, k requires 0 <= k < |path| && path[k] < |valid| => valid[path[k]]);
    forall k | 0 < k < |values| ensures Overlaps(values[k - 1], values[k]) {
      assert DisjointSets.Adjacent(Edge(valid), path[k - 1], path[k]);
    }
    assert Chain(valid, values, valid[i], valid[j]);
  }

  lemma StepByIndex(valid: seq<Candidate>, i: nat, j: nat)
    requires AllAccepted(valid) && i < |valid| && j < |valid| && (valid[i] == valid[j] || Overlaps(valid[i], valid[j]))
    ensures DisjointSets.Linked(Edge(valid), |valid|, i, j)
  {
    if i == j {
      DisjointSets.LinkedSelf(Edge(valid), |valid|, i);
    } else {
      assert Overlaps(valid[i], valid[j]) by {
        assert Accepted(valid[i]);
        if valid[i] == valid[j] { assert valid[i].components[0] in valid[j].components; }
      }
      DisjointSets.LinkedStep(Edge(valid), |valid|, i, j);
    }
  }

  lemma {:induction false} ChainByIndex(valid: seq<Candidate>, path: seq<Candidate>, i: nat, j: nat)
    requires AllAccepted(valid) && i < |valid| && j < |valid| && Chain(valid, path, valid[i], valid[j])
    ensures DisjointSets.Linked(Edge(valid), |valid|, i, j)
  {
    if |path| == 1 {
      StepByIndex(valid, i, j);
    } else {
      assert path[1] in valid;
      var k :| 0 <= k < |valid| && valid[k] == path[1];
      assert Overlaps(path[1 - 1], path[1]);
      StepByIndex(valid, i, k);
      assert Chain(valid, path[1..], valid[k], valid[j]);
      ChainByIndex(valid, path[1..], k, j);
      DisjointSets.LinkedTransitive(Edge(valid), |valid|, i, k, j);
    }
  }

  lemma LinkedByIndex(valid: seq<Candidate>, i: nat, j: nat)
    requires AllAccepted(valid) && i < |valid| && j < |valid|
    ensures DisjointSets.Linked(Edge(valid), |valid|, i, j) <==> Linked(valid, valid[i], valid[j])
  {
    if DisjointSets.Linked(Edge(valid), |valid|, i, j) {
      var path :| DisjointSets.ChainFrom(Edge(valid), |valid|, path, i, j);
      ChainOfIndices(valid, path, i, j);
    }
    if Linked(valid, valid[i], valid[j]) {
      var path :| Chain(valid, path, valid[i], valid[j]);
      ChainByIndex(valid, path, i, j);
    }
  }

  // ---------------------------------------------------------------- what a grouping is

  ghost predicate HeldBy(members: seq<Candidate>, x: nat) {
    exists c :: c in members && x in c.components
  }

  /** ids is the canonical union of the members' component lists. */
  ghost predicate UnionOf(ids: seq<nat>, members: seq<Candidate>) {
    Ascending(ids) && forall x :: x in ids <==> HeldBy(members, x)
  }

  /** Every member comes from the input, with all its occurrences. */
  ghost predicate TakesAll(valid: seq<Candidate>, members: seq<Candidate>) {
    forall c :: c in members ==> c in valid && multiset(members)[c] == multiset(valid)[c]
  }

  ghost predicate WholeGroup(valid: seq<Candidate>, g: Group) {
    g.members != [] && TakesAll(valid, g.members) && UnionOf(g.components, g.members)
  }

  ghost predicate InSome(groups: seq<Group>, c: Candidate) {
    exists g :: g in groups && c in g.members
  }

  /** Two groups are the same exactly when their members are linked. */
  ghost predicate Related(valid: seq<Candidate>, g: Group, h: Group) {
    forall a, b :: a in g.members && b in h.members ==> (g == h <==> Linked(valid, a, b))
  }

  ghost predicate Classes(valid: seq<Candidate>, groups: seq<Group>) {
    && (forall g :: g in groups ==> WholeGroup(valid, g))
    && (forall c :: c in valid ==> InSome(groups, c))
    && (forall g, h :: g in groups && h in groups ==> Related(valid, g, h))
  }

  predicate LexLess(a: seq<nat>, b: seq<nat>) { Sorting.LexLess(Below, a, b) }

  predicate GroupLess(g: Group, h: Group) { LexLess(g.components, h.components) }

  /** The classes, listed by ascending component lists. */
  ghost predicate Grouping(valid: seq<Candidate>, groups: seq<Group>) {
    Classes(valid, groups) && Sorting.Increasing(GroupLess, groups)
  }

  lemma CommonComponent(valid: seq<Candidate>, g: Group, h: Group, x: nat)
    requires TakesAll(valid, g.members) && TakesAll(valid, h.members) && Related(valid, g, h)
    requires HeldBy(g.members, x) && HeldBy(h.members, x)
    ensures g == h
  {
    var a :| a in g.members && x in a.components;
    var b :| b in h.members && x in b.components;
    assert Overlaps(a, b);
    assert Chain(valid, [a, b], a, b);
  }

  lemma SharedComponent(valid: seq<Candidate>, groups: seq<Group>, g: Group, h: Group, x: nat)
    requires Classes(valid, groups) && g in groups && h in groups
    requires x in g.components && x in h.components
    ensures g == h
  {
    assert WholeGroup(valid, g) && WholeGroup(valid, h);
    CommonComponent(valid, g, h, x);
  }

  /** Different groups have no component in common. */
  lemma GroupsDisjoint(valid: seq<Candidate>, groups: seq<Group>, i: nat, j: nat)
    requires Grouping(valid, groups) && i < j < |groups|
    ensures forall x :: x in groups[i].components ==> x !in groups[j].components
  {
    assert GroupLess(groups[i], groups[j]);
    Sorting.LexAsymmetric(Below, groups[i].components, groups[j].components);
    forall x | x in groups[i].components ensures x !in groups[j].components {
      if x in groups[j].components { SharedComponent(valid, groups, groups[i], groups[j], x); }
    }
  }

  // ---------------------------------------------------------------- the lexicographic order

  lemma GroupOrder(groups: seq<Group>)
    ensures Sorting.Transitive(GroupLess, groups) && Sorting.Asymmetric(GroupLess, groups)
  {
    forall x, y, z | GroupLess(x, y) && GroupLess(y, z) ensures GroupLess(x, z) {
      Sorting.LexTransitive(Below, x.components, y.components, z.components);
    }
    forall x, y | GroupLess(x, y) ensures !GroupLess(y, x) {
      Sorting.LexAsymmetric(Below, x.components, y.components);
    }
  }

  // ---------------------------------------------------------------- building the groups

  /** The candidates below k with root r, in order. */
  ghost function Bucket(valid: seq<Candidate>, rep: seq<nat>, r: nat, k: nat): (b: seq<Candidate>)
    requires |rep| == |valid| && k <= |valid|
    ensures forall c :: c in b <==> exists i :: 0 <= i < k && rep[i] == r && valid[i] == c
  {
    if k == 0 then []
    else if rep[k - 1] == r then Bucket(valid, rep, r, k - 1) + [valid[k - 1]]
    else Bucket(valid, rep, r, k - 1)
  }

  /** A bucket with one occurrence of c has them all, when equal candidates share a root. */
  lemma {:induction false} BucketCount(valid: seq<Candidate>, rep: seq<nat>, r: nat, k: nat, c: Candidate)
    requires |rep| == |valid| && k <= |valid|
    requires forall i :: 0 <= i < |valid| && valid[i] == c ==> rep[i] == r
    ensures multiset(Bucket(valid, rep, r, k))[c] == multiset(valid[..k])[c]
  {
    if k > 0 {
      BucketCount(valid, rep, r, k - 1, c);
      assert valid[..k] == valid[..k - 1] + [valid[k - 1]];
    }
  }

  ghost predicate Bucketed(valid: seq<Candidate>, rep: seq<nat>, buckets: seq<seq<Candidate>>, k: nat)
    requires |rep| == |valid| && k <= |valid|
  {
    && |buckets| == |valid|
    && (forall r :: 0 <= r < |buckets| ==> buckets[r] == Bucket(valid, rep, r, k))
  }

  /** The listed groups are those of the buckets below r, in order. */
  ghost predicate FromBuckets(valid: seq<Candidate>, buckets: seq<seq<Candidate>>, groups: seq<Group>, roots: seq<nat>, r: nat)
    requires r <= |buckets|
  {
    && |roots| == |groups| && Ascending(roots)
    && (forall k :: 0 <= k < |groups| ==> roots[k] < r && groups[k].members == buckets[roots[k]] && WholeGroup(valid, groups[k]))
    && (forall q: nat :: q < r && buckets[q] != [] ==> q in roots)
  }

  lemma HeldByMore(members: seq<Candidate>, k: nat)
    requires k < |members|
    ensures forall x :: HeldBy(members[..k + 1], x) <==> HeldBy(members[..k], x) || x in members[k].components
  {
    assert members[..k + 1] == members[..k] + [members[k]];
    forall x ensures HeldBy(members[..k + 1], x) <==> HeldBy(members[..k], x) || x in members[k].components {
      if HeldBy(members[..k], x) {
        var c :| c in members[..k] && x in c.components;
        assert c in members[..k + 1];
      }
      if x in members[k].components { assert members[k] in members[..k + 1]; }
    }
  }

  method Components(members: seq<Candidate>) returns (ids: seq<nat>)
    ensures UnionOf(ids, members)
  {
    var all: seq<nat> := [];
    for k := 0 to |members|
      invariant forall x :: x in all <==> HeldBy(members[..k], x)
    {
      HeldByMore(members, k);
      all := all + members[k].components;
    }
    assert members[..|members|] == members;
    ids := CanonicalMembers(all);
  }

  method GroupCandidates(valid: seq<Candidate>) returns (groups: seq<Group>)
    requires AllAccepted(valid)
    ensures Grouping(valid, groups)
  {
    var n := |valid|;
    var sets := new DisjointSets.UnionFind(n);
    DisjointSets.JoinLinked(sets, Edge(valid));
    ghost var rep := sets.rep;
    forall i | 0 <= i < n ensures rep[i] < n { assert DisjointSets.Node(sets.parent[..], rep, sets.rank, i); }
    var buckets: seq<seq<Candidate>> := seq(n, _ => []);
    for k := 0 to n
      invariant sets.Valid() && sets.rep == rep && |rep| == n
      invariant Bucketed(valid, rep, buckets, k)
    {
      var root := sets.Root(k);
      buckets := buckets[root := buckets[root] + [valid[k]]];
    }
    var unsorted: seq<Group> := [];
    ghost var roots: seq<nat> := [];
    for r := 0 to n
      invariant FromBuckets(valid, buckets, unsorted, roots, r)
    {
      if buckets[r] != [] {
        var ids := Components(buckets[r]);
        BucketIsWhole(valid, rep, r);
        unsorted := unsorted + [Group(ids, buckets[r])];
        forall k | 0 <= k < |roots| ensures Below(roots[k], r) {}
        roots := roots + [r];
      }
    }
    BucketsAreClasses(valid, rep, buckets, unsorted, roots);
    groups := Sorting.SortBy(GroupLess, unsorted);
    SortedClasses(valid, unsorted, groups);
  }

  lemma {:induction false} BucketIsWhole(valid: seq<Candidate>, rep: seq<nat>, r: nat)
    requires AllAccepted(valid) && |rep| == |valid| && DisjointSets.ClassesAreChains(Edge(valid), rep)
    ensures TakesAll(valid, Bucket(valid, rep, r, |valid|))
  {
    forall c | c in Bucket(valid, rep, r, |valid|)
      ensures c in valid && multiset(Bucket(valid, rep, r, |valid|))[c] == multiset(valid)[c]
    {
      var j :| 0 <= j < |valid| && rep[j] == r && valid[j] == c;
      forall i | 0 <= i < |valid| && valid[i] == c ensures rep[i] == r {
        StepByIndex(valid, i, j);
      }
      BucketCount(valid, rep, r, |valid|, c);
      assert valid[..|valid|] == valid;
    }
  }

  /** Members of two listed groups are linked exactly when the groups are the same one. */
  lemma LinkedWithin(valid: seq<Candidate>, rep: seq<nat>, buckets: seq<seq<Candidate>>, groups: seq<Group>, roots: seq<nat>,
                     i: nat, j: nat, a: Candidate, b: Candidate)
    requires AllAccepted(valid) && |rep| == |valid| && DisjointSets.ClassesAreChains(Edge(valid), rep)
    requires Bucketed(valid, rep, buckets, |valid|) && FromBuckets(valid, buckets, groups, roots, |valid|)
    requires i < |groups| && j < |groups| && a in groups[i].members && b in groups[j].members
    ensures i == j <==> Linked(valid, a, b)
  {
    assert a in Bucket(valid, rep, roots[i], |valid|) && b in Bucket(valid, rep, roots[j], |valid|);
    var p :| 0 <= p < |valid| && rep[p] == roots[i] && valid[p] == a;
    var q :| 0 <= q < |valid| && rep[q] == roots[j] && valid[q] == b;
    LinkedByIndex(valid, p, q);
    assert i < j ==> Below(roots[i], roots[j]);
    assert j < i ==> Below(roots[j], roots[i]);
  }

  lemma EveryCandidateListed(valid: seq<Candidate>, rep: seq<nat>, buckets: seq<seq<Candidate>>, groups: seq<Group>, roots: seq<nat>,
                             c: Candidate)
    requires |rep| == |valid| && (forall i :: 0 <= i < |rep| ==> rep[i] < |rep|)
    requires Bucketed(valid, rep, buckets, |valid|) && FromBuckets(valid, buckets, groups, roots, |valid|)
    requires c in valid
    ensures InSome(groups, c)
  {
    var p :| 0 <= p < |valid| && valid[p] == c;
    assert c in Bucket(valid, rep, rep[p], |valid|);
    assert c in buckets[rep[p]] && rep[p] in roots;
    var k :| 0 <= k < |roots| && roots[k] == rep[p];
    assert groups[k] in groups;
  }

  lemma ListedRelated(valid: seq<Candidate>, rep: seq<nat>, buckets: seq<seq<Candidate>>, groups: seq<Group>, roots: seq<nat>,
                      i: nat, j: nat)
    requires AllAccepted(valid) && |rep| == |valid| && DisjointSets.ClassesAreChains(Edge(valid), rep)
    requires Bucketed(valid, rep, buckets, |valid|) && FromBuckets(valid, buckets, groups, roots, |valid|)
    requires i < |groups| && j < |groups|
    ensures Related(valid, groups[i], groups[j]) && (i != j ==> groups[i] != groups[j])
  {
    var g, h := groups[i], groups[j];
    forall a, b | a in g.members && b in h.members ensures i == j <==> Linked(valid, a, b) {
      LinkedWithin(valid, rep, buckets, groups, roots, i, j, a, b);
    }
    assert WholeGroup(valid, g);
    SomeMemberLinked(valid, g);
  }

  lemma SomeMemberLinked(valid: seq<Candidate>, g: Group)
    requires WholeGroup(valid, g)
    ensures exists a :: a in g.members && Linked(valid, a, a)
  {
    var a := g.members[0];
    assert a in g.members && Chain(valid, [a], a, a);
  }

  lemma BucketsAreClasses(valid: seq<Candidate>, rep: seq<nat>, buckets: seq<seq<Candidate>>, groups: seq<Group>, roots: seq<nat>)
    requires AllAccepted(valid) && |rep| == |valid| && DisjointSets.ClassesAreChains(Edge(valid), rep)
    requires forall i :: 0 <= i < |rep| ==> rep[i] < |rep|
    requires Bucketed(valid, rep, buckets, |valid|)
    requires FromBuckets(valid, buckets, groups, roots, |valid|)
    ensures Classes(valid, groups) && Sorting.Separates(GroupLess, groups)
  {
    forall c | c in valid ensures InSome(groups, c) {
      EveryCandidateListed(valid, rep, buckets, groups, roots, c);
    }
    forall g, h | g in groups && h in groups
      ensures Related(valid, g, h)
    {
      var i :| 0 <= i < |groups| && groups[i] == g;
      var j :| 0 <= j < |groups| && groups[j] == h;
      ListedRelated(valid, rep, buckets, groups, roots, i, j);
    }
    forall i, j | 0 <= i < j < |groups|
      ensures GroupLess(groups[i], groups[j]) || GroupLess(groups[j], groups[i])
    {
      ListedRelated(valid, rep, buckets, groups, roots, i, j);
      assert WholeGroup(valid, groups[i]) && WholeGroup(valid, groups[j]);
      DifferentHeads(valid, groups[i], groups[j]);
    }
  }

  lemma HasComponent(valid: seq<Candidate>, g: Group)
    requires AllAccepted(valid) && WholeGroup(valid, g)
    ensures g.components != []
  {
    var c := g.members[0];
    assert c in g.members && c in valid && Accepted(c);
    assert HeldBy(g.members, c.components[0]);
  }

  lemma DifferentHeads(valid: seq<Candidate>, g: Group, h: Group)
    requires AllAccepted(valid) && WholeGroup(valid, g) && WholeGroup(valid, h) && Related(valid, g, h) && g != h
    ensures LexLess(g.components, h.components) || LexLess(h.components, g.components)
  {
    HasComponent(valid, g);
    HasComponent(valid, h);
    if g.components[0] == h.components[0] {
      CommonComponent(valid, g, h, g.components[0]);
    }
  }

  lemma {:induction false} SortedClasses(valid: seq<Candidate>, unsorted: seq<Group>, groups: seq<Group>)
    requires Classes(valid, unsorted) && Sorting.Separates(GroupLess, unsorted)
    requires groups == Sorting.SortBy(GroupLess, unsorted)
    ensures Grouping(valid, groups)
  {
    GroupOrder(unsorted);
    Sorting.SortIncreasing(GroupLess, unsorted);
    Sorting.SameMembers(unsorted, groups);
    forall c | c in valid ensures InSome(groups, c) {
      assert InSome(unsorted, c);
      var g :| g in unsorted && c in g.members;
      assert g in groups;
    }
  }

  // ---------------------------------------------------------------- independence of the input order

  lemma SameChains(valid: seq<Candidate>, other: seq<Candidate>, a: Candidate, b: Candidate)
    requires multiset(valid) == multiset(other)
    ensures Linked(valid, a, b) <==> Linked(other, a, b)
  {
    Sorting.SameMembers(valid, other);
    if Linked(valid, a, b) {
      var path :| Chain(valid, path, a, b);
      assert Chain(other, path, a, b);
    }
    if Linked(other, a, b) {
      var path :| Chain(other, path, a, b);
      assert Chain(valid, path, a, b);
    }
  }

  lemma SameUnion(g: Group, h: Group)
    requires forall c :: c in g.members <==> c in h.members
    requires UnionOf(g.components, g.members) && UnionOf(h.components, h.members)
    ensures g.components == h.components
  {
    forall x ensures HeldBy(g.members, x) <==> HeldBy(h.members, x) {}
    Sorting.UniqueByMembers(Below, g.components, h.components);
  }

  /** The two groups holding a common member have the same members, as often, and the same components. */
  lemma SameGroup(valid: seq<Candidate>, other: seq<Candidate>, groups: seq<Group>, groups': seq<Group>,
                  g: Group, h: Group, a: Candidate)
    requires multiset(valid) == multiset(other) && Classes(valid, groups) && Classes(other, groups')
    requires g in groups && h in groups' && a in g.members && a in h.members
    ensures multiset(g.members) == multiset(h.members) && g.components == h.components
  {
    MembersCarryOver(valid, other, groups, groups', g, h, a);
    MembersCarryOver(other, valid, groups', groups, h, g, a);
    assert WholeGroup(valid, g) && WholeGroup(other, h);
    SameCounts(valid, other, g.members, h.members);
    SameUnion(g, h);
  }

  lemma SameCounts(valid: seq<Candidate>, other: seq<Candidate>, s: seq<Candidate>, t: seq<Candidate>)
    requires multiset(valid) == multiset(other) && TakesAll(valid, s) && TakesAll(other, t)
    requires forall c :: c in s <==> c in t
    ensures multiset(s) == multiset(t)
  {
    forall c ensures multiset(s)[c] == multiset(t)[c] {
      assert c in s <==> c in multiset(s);
      assert c in t <==> c in multiset(t);
    }
  }

  lemma MembersCarryOver(valid: seq<Candidate>, other: seq<Candidate>, groups: seq<Group>, groups': seq<Group>,
                         g: Group, h: Group, a: Candidate)
    requires multiset(valid) == multiset(other) && Classes(valid, groups) && Classes(other, groups')
    requires g in groups && h in groups' && a in g.members && a in h.members
    ensures forall c :: c in g.members ==> c in h.members
  {
    Sorting.SameMembers(valid, other);
    forall c | c in g.members ensures c in h.members {
      assert WholeGroup(valid, g) && Related(valid, g, g);
      SameChains(valid, other, a, c);
      assert InSome(groups', c);
      var h' :| h' in groups' && c in h'.members;
      assert Related(other, h, h');
    }
  }

  lemma SameKeySameGroup(groups: seq<Group>, h: Group, k: nat)
    requires Sorting.Increasing(GroupLess, groups) && k < |groups| && h in groups && h.components == groups[k].components
    ensures h == groups[k]
  {
    var j :| 0 <= j < |groups| && groups[j] == h;
    Sorting.LexIrreflexive(Below, h.components);
    assert j < k ==> GroupLess(groups[j], groups[k]);
    assert k < j ==> GroupLess(groups[k], groups[j]);
  }

  ghost function Keys(groups: seq<Group>): (keys: seq<seq<nat>>)
    ensures |keys| == |groups| && forall k :: 0 <= k < |keys| ==> keys[k] == groups[k].components
  {
    seq(|groups|, k requires 0 <= k < |groups| => groups[k].components)
  }

  lemma KeysCarryOver(valid: seq<Candidate>, other: seq<Candidate>, groups: seq<Group>, groups': seq<Group>)
    requires multiset(valid) == multiset(other) && Classes(valid, groups) && Classes(other, groups')
    ensures forall key :: key in Keys(groups) ==> key in Keys(groups')
  {
    Sorting.SameMembers(valid, other);
    forall key | key in Keys(groups) ensures key in Keys(groups') {
      var k :| 0 <= k < |groups| && groups[k].components == key;
      assert WholeGroup(valid, groups[k]);
      var a := groups[k].members[0];
      assert a in groups[k].members;
      assert InSome(groups', a);
      var j :| 0 <= j < |groups'| && a in groups'[j].members;
      SameGroup(valid, other, groups, groups', groups[k], groups'[j], a);
      assert Keys(groups')[j] == key;
    }
  }

  /** Whatever order the accepted candidates come in, the groups come out the same and in the same order. */
  lemma GroupsIndependent(valid: seq<Candidate>, other: seq<Candidate>, groups: seq<Group>, groups': seq<Group>)
    requires multiset(valid) == multiset(other)
    requires Grouping(valid, groups) && Grouping(other, groups')
    ensures |groups| == |groups'|
    ensures forall k :: 0 <= k < |groups| ==>
              groups[k].components == groups'[k].components && multiset(groups[k].members) == multiset(groups'[k].members)
  {
    var keys := Keys(groups);
    var keys' := Keys(groups');
    KeysCarryOver(valid, other, groups, groups');
    KeysCarryOver(other, valid, groups', groups);
    forall a, b | LexLess(a, b) ensures !LexLess(b, a) { Sorting.LexAsymmetric(Below, a, b); }
    forall i, j | 0 <= i < j < |groups| ensures LexLess(keys[i], keys[j]) { assert GroupLess(groups[i], groups[j]); }
    forall i, j | 0 <= i < j < |groups'| ensures LexLess(keys'[i], keys'[j]) { assert GroupLess(groups'[i], groups'[j]); }
    Sorting.UniqueByMembers(LexLess, keys, keys');
    forall k | 0 <= k < |groups|
      ensures groups[k].components == groups'[k].components && multiset(groups[k].members) == multiset(groups'[k].members)
    {
      assert keys[k] == keys'[k];
      assert WholeGroup(valid, groups[k]);
      var a := groups[k].members[0];
      assert a in groups[k].members;
      Sorting.SameMembers(valid, other);
      assert InSome(groups', a);
      var h :| h in groups' && a in h.members;
      SameGroup(valid, other, groups, groups', groups[k], h, a);
      SameKeySameGroup(groups', h, k);
    }
  }

  /** Nor does the order of the raw candidates matter, accepted or not. */
  lemma OrderIndependent(candidates: seq<Candidate>, others: seq<Candidate>, groups: seq<Group>, groups': seq<Group>)
    requires multiset(candidates) == multiset(others)
    requires Grouping(Valid(candidates), groups) && Grouping(Valid(others), groups')
    ensures |groups| == |groups'|
    ensures forall k :: 0 <= k < |groups| ==>
              groups[k].components == groups'[k].components && multiset(groups[k].members) == multiset(groups'[k].members)
  {
    Sorting.CollectedPermuted(candidates, others, Keeps(), Canonicalise());
    GroupsIndependent(Valid(candidates), Valid(others), groups, groups');
  }
}
