/**
 The two consumers of the clique enumerator: reconstruction of the one logical cargo owner of a
 frame, and the same-owner fragment set around an anchor group used after the load edge.
 */
module OwnerFragments {
  import opened Prelude
  import opened Cliques
  import Sorting

  datatype Cell = Cell(x: int, y: int)

  datatype Footprint = Footprint(valid: bool, sizeX: real, sizeY: real)

  /**
   A current-frame group with the facts both consumers read. localCells are its cells in its own
   footprint frame, frozenFrameCells its cells in the frozen footprint frame.
   */
  datatype Group = Group(
    ambiguous: bool,
    geometryResolved: bool,
    descriptorFinite: bool,
    hasPoints: bool,
    footprint: Footprint,
    localCells: set<Cell>,
    frozenFrameCells: set<Cell>)

  datatype VerticalConfig = VerticalConfig(minimumSurfaceCells: nat, minimumCoverageRatio: real)

  datatype OwnerReason = NoFrozenReference | NoCurrentOwner | CurrentOwnerAmbiguous | LogicalOwnerValid

  datatype LogicalOwner = LogicalOwner(valid: bool, ambiguous: bool, members: seq<nat>, reason: OwnerReason)

  predicate WithinRelativeStep(a: real, b: real, step: real) {
    Abs(a - b) / Max(Max(Abs(a), Abs(b)), 0.000000001) <= step
  }

  /** Yaw-invariant comparison: short sides against each other, long sides against each other. */
  predicate ExtentCompatible(a: Footprint, b: Footprint, step: real) {
    && WithinRelativeStep(Min(a.sizeX, a.sizeY), Min(b.sizeX, b.sizeY), step)
    && WithinRelativeStep(Max(a.sizeX, a.sizeY), Max(b.sizeX, b.sizeY), step)
  }

  function Coverage(shared: nat, size: nat): real {
    shared as real / (if size > 1 then size else 1) as real
  }

  predicate SameOwnerFragment(a: set<Cell>, b: set<Cell>, config: VerticalConfig) {
    var shared := |a * b|;
    && shared >= config.minimumSurfaceCells
    && Coverage(shared, |a|) >= config.minimumCoverageRatio
    && Coverage(shared, |b|) >= config.minimumCoverageRatio
  }

  lemma FragmentSymmetric(a: set<Cell>, b: set<Cell>, config: VerticalConfig)
    ensures SameOwnerFragment(a, b, config) == SameOwnerFragment(b, a, config)
  {
    assert a * b == b * a;
  }

  ghost predicate MatrixOf(m: Matrix, cells: seq<set<Cell>>, config: VerticalConfig) {
    && |m| == |cells|
    && CompatibilityMatrix(m)
    && (forall i: nat, j: nat :: i < |cells| && j < |cells| ==>
          (Compatible(m, i, j) <==> i != j && SameOwnerFragment(cells[i], cells[j], config)))
  }

  /** The entries the nested loops have written once they stand at (row, col). */
  ghost predicate Written(i: int, j: int, row: int, col: int) {
    (i < j && (i < row || (i == row && j < col))) || (j < i && (j < row || (j == row && i < col)))
  }

  ghost predicate Entry(m: Matrix, cells: seq<set<Cell>>, config: VerticalConfig, row: int, col: int, i: nat, j: nat)
    requires i < |cells| && j < |cells|
  {
    && i < |m| && |m[i]| == |cells|
    && m[i][j] == (Written(i, j, row, col) && SameOwnerFragment(cells[i], cells[j], config))
  }

  ghost predicate Partial(m: Matrix, cells: seq<set<Cell>>, config: VerticalConfig, row: int, col: int) {
    && |m| == |cells|
    && (forall i :: 0 <= i < |m| ==> |m[i]| == |cells|)
    && (forall i: nat, j: nat :: i < |cells| && j < |cells| ==> Entry(m, cells, config, row, col, i, j))
  }

  method BuildMatrix(cells: seq<set<Cell>>, config: VerticalConfig) returns (m: Matrix)
    ensures MatrixOf(m, cells, config)
  {
    var n := |cells|;
    m := seq(n, _ => seq(n, _ => false));
    for i := 0 to n
      invariant Partial(m, cells, config, i, i + 1)
    {
      for j := i + 1 to n
        invariant Partial(m, cells, config, i, j)
      {
        var compatible := SameOwnerFragment(cells[i], cells[j], config);
        ghost var before := m;
        m := m[i := m[i][j := compatible]];
        ghost var once := m;
        m := m[j := m[j][i := compatible]];
        WriteBoth(before, cells, config, i, j, once, m, j + 1);
      }
      NextRow(m, cells, config, i, n, i + 1, i + 2);
    }
    AllWritten(m, cells, config);
  }

  lemma WriteBoth(m: Matrix, cells: seq<set<Cell>>, config: VerticalConfig, i: nat, j: nat, once: Matrix, twice: Matrix, next: nat)
    requires Partial(m, cells, config, i, j) && i < j < |cells| && next == j + 1
    requires once == m[i := m[i][j := SameOwnerFragment(cells[i], cells[j], config)]]
    requires twice == once[j := once[j][i := SameOwnerFragment(cells[i], cells[j], config)]]
    ensures Partial(twice, cells, config, i, next)
  {
    FragmentSymmetric(cells[i], cells[j], config);
    assert forall a :: 0 <= a < |cells| ==> |m[a]| == |once[a]| == |twice[a]| == |cells|;
    forall a: nat, b: nat | a < |cells| && b < |cells|
      ensures Entry(twice, cells, config, i, next, a, b)
    {
      assert Entry(m, cells, config, i, j, a, b);
    }
  }

  /** With a row complete the loops stand at the start of the next one. */
  lemma NextRow(m: Matrix, cells: seq<set<Cell>>, config: VerticalConfig, row: nat, col: nat, row': nat, col': nat)
    requires Partial(m, cells, config, row, col) && col == |cells| && row' == row + 1 && col' == row + 2
    ensures Partial(m, cells, config, row', col')
  {
    forall a: nat, b: nat | a < |cells| && b < |cells|
      ensures Entry(m, cells, config, row', col', a, b)
    {
      assert Entry(m, cells, config, row, col, a, b);
    }
  }

  lemma AllWritten(m: Matrix, cells: seq<set<Cell>>, config: VerticalConfig)
    requires Partial(m, cells, config, |cells|, |cells| + 1)
    ensures MatrixOf(m, cells, config)
  {
    forall i: nat, j: nat | i < |cells| && j < |cells|
      ensures Compatible(m, i, j) <==> i != j && SameOwnerFragment(cells[i], cells[j], config)
    {
      assert Entry(m, cells, config, |cells|, |cells| + 1, i, j);
    }
    forall v: nat, w: nat | Compatible(m, v, w)
      ensures Compatible(m, w, v)
    {
      FragmentSymmetric(cells[v], cells[w], config);
    }
  }

  // ---------------------------------------------------------------- eligible groups

  predicate Eligible(g: Group, frozen: Footprint, mask: set<Cell>, config: VerticalConfig, step: real) {
    && !g.ambiguous && g.geometryResolved && g.hasPoints && g.descriptorFinite
    && g.footprint.valid
    && ExtentCompatible(g.footprint, frozen, step)
    && |g.localCells * mask| >= config.minimumSurfaceCells
  }

  predicate FragmentEligible(g: Group, mask: set<Cell>) {
    !g.ambiguous && g.hasPoints && g.frozenFrameCells * mask != {}
  }

  /** Per group, the cells it is compared by, or None when it is not eligible. */
  type Support = seq<Option<set<Cell>>>

  function OwnerSupport(groups: seq<Group>, frozen: Footprint, mask: set<Cell>, config: VerticalConfig, step: real): (s: Support)
  {
    seq(|groups|, i requires 0 <= i < |groups| =>
      if Eligible(groups[i], frozen, mask, config, step) then Some(groups[i].localCells) else None)
  }

  function FragmentSupport(groups: seq<Group>, mask: set<Cell>): (s: Support)
  {
    seq(|groups|, i requires 0 <= i < |groups| =>
      if FragmentEligible(groups[i], mask) then Some(groups[i].frozenFrameCells * mask) else None)
  }

  predicate Kept(support: Support, i: nat) {
    i < |support| && support[i].Some?
  }

  predicate Below(a: nat, b: nat) { a < b }

  /** indices lists, in order, exactly the eligible groups below n; cells are theirs. */
  ghost predicate Selects(indices: seq<nat>, cells: seq<set<Cell>>, support: Support, n: nat) {
    && Sorting.Increasing(Below, indices)
    && |cells| == |indices|
    && (forall k :: 0 <= k < |indices| ==> indices[k] < n && Kept(support, indices[k]) && cells[k] == support[indices[k]].value)
    && (forall i: nat :: i < n && Kept(support, i) ==> i in indices)
  }

  method SelectGroups(support: Support) returns (indices: seq<nat>, cells: seq<set<Cell>>)
    ensures Selects(indices, cells, support, |support|)
  {
    indices, cells := [], [];
    for i := 0 to |support|
      invariant Selects(indices, cells, support, i)
    {
      if support[i].Some? {
        forall k | 0 <= k < |indices| ensures Below(indices[k], i) {}
        indices, cells := indices + [i], cells + [support[i].value];
      }
    }
  }

  lemma DifferentGroups(indices: seq<nat>, v: nat, w: nat)
    requires Sorting.Increasing(Below, indices) && v < |indices| && w < |indices| && v != w
    ensures indices[v] != indices[w]
  {
    assert if v < w then Below(indices[v], indices[w]) else Below(indices[w], indices[v]);
  }

  ghost predicate SameOwner(support: Support, config: VerticalConfig, i: nat, j: nat)
    requires Kept(support, i) && Kept(support, j)
  {
    SameOwnerFragment(support[i].value, support[j].value, config)
  }

  /** Every two groups of the kept set are fragments of one owner. */
  ghost predicate Agree(support: Support, config: VerticalConfig, kept: set<nat>)
    requires forall i :: i in kept ==> Kept(support, i)
  {
    forall i, j :: i in kept && j in kept && i != j ==> SameOwner(support, config, i, j)
  }

  ghost function KeptGroups(support: Support): (kept: set<nat>)
    ensures forall i: nat :: i in kept <==> Kept(support, i)
  {
    set i: nat | i < |support| && Kept(support, i)
  }

  /** The anchor and the eligible groups that are fragments of the anchor's owner. */
  ghost function AroundAnchor(support: Support, config: VerticalConfig, anchor: nat): (kept: set<nat>)
    requires Kept(support, anchor)
    ensures forall i: nat :: i in kept <==> Kept(support, i) && (i == anchor || SameOwner(support, config, anchor, i))
  {
    set i: nat | i < |support| && Kept(support, i) && (i == anchor || SameOwner(support, config, anchor, i))
  }

  /** A set of matrix positions is pairwise compatible exactly when the groups behind it agree. */
  lemma CompatibleMeansAgree(support: Support, config: VerticalConfig, indices: seq<nat>, cells: seq<set<Cell>>,
                             m: Matrix, positions: set<nat>, kept: set<nat>)
    requires Selects(indices, cells, support, |support|) && MatrixOf(m, cells, config)
    requires forall v :: v in positions ==> v < |indices|
    requires forall i :: i in kept ==> Kept(support, i)
    requires forall v: nat :: v < |indices| ==> (v in positions <==> indices[v] in kept)
    ensures PairwiseCompatible(m, positions) <==> Agree(support, config, kept)
  {
    if PairwiseCompatible(m, positions) {
      forall i, j | i in kept && j in kept && i != j
        ensures SameOwner(support, config, i, j)
      {
        assert Kept(support, i) && Kept(support, j);
        assert i in indices && j in indices;
        var v :| 0 <= v < |indices| && indices[v] == i;
        var w :| 0 <= w < |indices| && indices[w] == j;
        assert Compatible(m, v, w);
      }
    }
    if Agree(support, config, kept) {
      forall v, w | v in positions && w in positions && v != w
        ensures Compatible(m, v, w)
      {
        DifferentGroups(indices, v, w);
        assert SameOwner(support, config, indices[v], indices[w]);
      }
    }
  }

  /** The group indices behind a clique of positions. */
  method MembersOf(indices: seq<nat>, clique: seq<nat>) returns (members: seq<nat>)
    requires forall k :: 0 <= k < |clique| ==> clique[k] < |indices|
    ensures |members| == |clique|
    ensures forall k :: 0 <= k < |clique| ==> members[k] == indices[clique[k]]
  {
    members := [];
    for k := 0 to |clique|
      invariant |members| == k
      invariant forall q :: 0 <= q < k ==> members[q] == indices[clique[q]]
    {
      members := members + [indices[clique[k]]];
    }
  }

  lemma MembersAreKept(support: Support, indices: seq<nat>, cells: seq<set<Cell>>, clique: seq<nat>,
                       members: seq<nat>, positions: set<nat>, kept: set<nat>)
    requires Selects(indices, cells, support, |support|) && Distinct(clique) && Elems(clique) == positions
    requires forall v :: v in positions ==> v < |indices|
    requires forall i :: i in kept ==> Kept(support, i)
    requires forall v: nat :: v < |indices| ==> (v in positions <==> indices[v] in kept)
    requires |members| == |clique|
    requires forall k :: 0 <= k < |clique| ==> clique[k] < |indices| && members[k] == indices[clique[k]]
    ensures Distinct(members)
    ensures forall i :: i in members <==> i in kept
  {
    forall i, j | 0 <= i < j < |members|
      ensures members[i] != members[j]
    {
      DifferentGroups(indices, clique[i], clique[j]);
    }
    forall i
      ensures i in members <==> i in kept
    {
      if i in members {
        var k :| 0 <= k < |members| && members[k] == i;
        assert clique[k] in Elems(clique);
      }
      if i in kept {
        assert Kept(support, i) && i in indices;
        var v :| 0 <= v < |indices| && indices[v] == i;
        assert v in Elems(clique);
        var k :| 0 <= k < |clique| && clique[k] == v;
        assert members[k] == i;
      }
    }
  }

  // ---------------------------------------------------------------- the logical owner

  /**
   The logical owner exists exactly when some group is eligible and the eligible groups are
   pairwise the same owner; it then consists of all of them, in ascending order.
   */
  method ReconstructLogicalOwner(groups: seq<Group>, frozen: Footprint, mask: set<Cell>,
                                 config: VerticalConfig, step: real) returns (owner: LogicalOwner)
    ensures var support := OwnerSupport(groups, frozen, mask, config, step);
            var kept := KeptGroups(support);
            && (owner.valid <==> frozen.valid && mask != {} && kept != {} && Agree(support, config, kept))
            && (owner.ambiguous <==> frozen.valid && mask != {} && !Agree(support, config, kept))
            && (owner.valid ==> Sorting.Increasing(Below, owner.members) && Elems(owner.members) == kept)
            && (!owner.valid ==> owner.members == [])
    ensures owner.reason == NoFrozenReference <==> !frozen.valid || mask == {}
    ensures owner.reason == LogicalOwnerValid <==> owner.valid
    ensures owner.reason == CurrentOwnerAmbiguous <==> owner.ambiguous
  {
    if !frozen.valid || mask == {} {
      return LogicalOwner(false, false, [], NoFrozenReference);
    }
    var support := OwnerSupport(groups, frozen, mask, config, step);
    var indices, cells := SelectGroups(support);
    ghost var kept := KeptGroups(support);
    if indices == [] {
      return LogicalOwner(false, false, [], NoCurrentOwner);
    }
    assert indices[0] in kept;
    var m := BuildMatrix(cells, config);
    var cliques := AllMaximalCliques(m);
    UniqueMaximalClique(m, cliques);
    CompatibleMeansAgree(support, config, indices, cells, m, AllOf(m), kept);
    if |cliques| != 1 {
      return LogicalOwner(false, true, [], CurrentOwnerAmbiguous);
    }
    forall k | 0 <= k < |cliques[0]| ensures cliques[0][k] < |indices| { assert cliques[0][k] in Elems(cliques[0]); }
    var members := MembersOf(indices, cliques[0]);
    MembersAreKept(support, indices, cells, cliques[0], members, AllOf(m), kept);
    owner := LogicalOwner(true, false, Sorting.SortBy(Below, members), LogicalOwnerValid);
    SortDistinct(members);
  }

  lemma {:induction false} SortDistinct(s: seq<nat>)
    requires Distinct(s)
    ensures Sorting.Increasing(Below, Sorting.SortBy(Below, s))
    ensures Elems(Sorting.SortBy(Below, s)) == Elems(s)
  {
    assert forall i, j :: 0 <= i < j < |s| ==> Below(s[i], s[j]) || Below(s[j], s[i]);
    Sorting.SortIncreasing(Below, s);
    Sorting.SameMembers(s, Sorting.SortBy(Below, s));
  }

  // ---------------------------------------------------------------- the fragments around an anchor

  /**
   The fragment set is non-empty exactly when the anchor is eligible and everything compatible with
   it is pairwise compatible; it is then the anchor plus all of those groups, each once.
   */
  method PostLoadFragments(groups: seq<Group>, anchor: nat, frozen: Footprint, mask: set<Cell>,
                           config: VerticalConfig) returns (members: seq<nat>)
    ensures var support := FragmentSupport(groups, mask);
            && (members != [] <==> frozen.valid && Kept(support, anchor)
                                   && Agree(support, config, AroundAnchor(support, config, anchor)))
            && (members != [] ==> Distinct(members) && Elems(members) == AroundAnchor(support, config, anchor))
  {
    if anchor >= |groups| || !frozen.valid {
      return [];
    }
    var support := FragmentSupport(groups, mask);
    var indices, cells := SelectGroups(support);
    var position := FindPosition(indices, anchor);
    if position == |indices| {
      return [];
    }
    var m := BuildMatrix(cells, config);
    var cliques := AllMaximalCliques(m);
    ghost var kept := AroundAnchor(support, config, anchor);
    ClosedIsAround(support, config, indices, cells, m, position, anchor);
    CompatibleMeansAgree(support, config, indices, cells, m, Closed(m, position), kept);
    var chosen := ChooseClique(m, cliques, position);
    if chosen < 0 {
      return [];
    }
    forall k | 0 <= k < |cliques[chosen]| ensures cliques[chosen][k] < |indices| {
      assert cliques[chosen][k] in Elems(cliques[chosen]);
    }
    members := MembersOf(indices, cliques[chosen]);
    MembersAreKept(support, indices, cells, cliques[chosen], members, Closed(m, position), kept);
    assert anchor in kept && anchor in members;
  }

  method FindPosition(indices: seq<nat>, anchor: nat) returns (position: nat)
    ensures position <= |indices|
    ensures position < |indices| ==> indices[position] == anchor
    ensures position == |indices| ==> anchor !in indices
  {
    position := 0;
    while position < |indices| && indices[position] != anchor
      invariant 0 <= position <= |indices| && anchor !in indices[..position]
    {
      position := position + 1;
    }
  }

  /** The index of the only clique that holds the position, or -1 when there are several. */
  method ChooseClique(m: Matrix, cliques: seq<seq<nat>>, position: nat) returns (chosen: int)
    requires CompatibilityMatrix(m) && position < |m|
    requires NoRepeats(cliques) && forall c: set<nat> :: IsMaximalClique(m, c) <==> Listed(cliques, c)
    ensures -1 <= chosen < |cliques|
    ensures chosen >= 0 <==> PairwiseCompatible(m, Closed(m, position))
    ensures chosen >= 0 ==> Distinct(cliques[chosen]) && Elems(cliques[chosen]) == Closed(m, position)
  {
    chosen := -1;
    for k := 0 to |cliques|
      invariant -1 <= chosen < k
      invariant chosen >= 0 ==> position in cliques[chosen]
      invariant forall q :: 0 <= q < k && position in cliques[q] ==> q == chosen
    {
      if position in cliques[k] {
        if chosen != -1 {
          TwoCliques(m, cliques, position, chosen, k);
          return -1;
        }
        chosen := k;
      }
    }
    OneClique(m, cliques, position, chosen);
  }

  lemma ClosedIsAround(support: Support, config: VerticalConfig, indices: seq<nat>, cells: seq<set<Cell>>,
                       m: Matrix, position: nat, anchor: nat)
    requires Selects(indices, cells, support, |support|) && MatrixOf(m, cells, config)
    requires position < |indices| && indices[position] == anchor
    ensures forall v: nat :: v < |indices| ==>
              (v in Closed(m, position) <==> indices[v] in AroundAnchor(support, config, anchor))
  {
    forall v: nat | v < |indices|
      ensures v in Closed(m, position) <==> indices[v] in AroundAnchor(support, config, anchor)
    {
      if v != position { DifferentGroups(indices, v, position); }
    }
  }

  lemma TwoCliques(m: Matrix, cliques: seq<seq<nat>>, position: nat, a: nat, b: nat)
    requires CompatibilityMatrix(m) && position < |m|
    requires NoRepeats(cliques) && forall c: set<nat> :: IsMaximalClique(m, c) <==> Listed(cliques, c)
    requires a < b < |cliques| && position in cliques[a] && position in cliques[b]
    ensures !PairwiseCompatible(m, Closed(m, position))
  {
    var c, d := Elems(cliques[a]), Elems(cliques[b]);
    assert Listed(cliques, c) && Listed(cliques, d);
    assert position in c && position in d && c != d;
    UniqueCliqueThrough(m, position);
  }

  lemma OneClique(m: Matrix, cliques: seq<seq<nat>>, position: nat, chosen: int)
    requires CompatibilityMatrix(m) && position < |m| && -1 <= chosen < |cliques|
    requires NoRepeats(cliques) && forall c: set<nat> :: IsMaximalClique(m, c) <==> Listed(cliques, c)
    requires chosen >= 0 ==> position in cliques[chosen]
    requires forall q :: 0 <= q < |cliques| && position in cliques[q] ==> q == chosen
    ensures chosen >= 0 && PairwiseCompatible(m, Closed(m, position))
    ensures Distinct(cliques[chosen]) && Elems(cliques[chosen]) == Closed(m, position)
  {
    UniqueCliqueThrough(m, position);
    forall c | IsMaximalClique(m, c) && position in c
      ensures chosen >= 0 && c == Elems(cliques[chosen])
    {
      assert Listed(cliques, c);
      var q :| 0 <= q < |cliques| && Elems(cliques[q]) == c;
      assert position in cliques[q];
    }
  }
}
