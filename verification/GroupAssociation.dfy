/**
 Reciprocal-unique association of current groups with cargo histories, component-lineage rescue of
 unmatched groups, and the post-unique vertical gate.
 */
module GroupAssociation {
  import opened Prelude

  const EPSILON: real := 0.000000001

  datatype Reject = Accepted | Gap | XyGate | ZGate | ExtentGate

  datatype Mode = NewHistory | AnchorContinuity | SupportOverlapContinuity

  datatype Config = Config(
    maximumXyStep: real,
    maximumZSpeed: real,
    zStepMargin: real,
    maximumSizeRelativeStep: real,
    ambiguityCostMargin: real,
    maximumObservationGap: real)

  /** The configuration after its setter has replaced unusable values. */
  ghost predicate UsableConfig(c: Config) {
    c.maximumXyStep > 0.0 && c.maximumZSpeed > 0.0 && c.zStepMargin >= 0.0 && c.maximumSizeRelativeStep >= 0.0
    && c.ambiguityCostMargin >= 0.0 && c.maximumObservationGap > 0.0
  }

  datatype GroupInput = GroupInput(frameGroupId: nat, ambiguous: bool, finite: bool, continuityOnly: bool)

  /** What is measured between one group and one history's last descriptor. */
  datatype Relation = Relation(
    dt: real,
    xy: real,
    supportSeparation: real,
    supportOverlaps: bool,
    dz: real,
    verticalUncertainty: real,
    extentStepX: real,
    extentStepY: real,
    extentStepZ: real)

  datatype Pair = Pair(group: nat, history: nat, feasible: bool, postUniqueZ: bool, cost: real, reject: Reject)

  function ZLimit(r: Relation, c: Config): real {
    c.maximumZSpeed * r.dt + c.zStepMargin + r.verticalUncertainty
  }

  function AssociationMode(r: Relation, c: Config): Mode {
    if r.xy <= c.maximumXyStep then AnchorContinuity
    else if r.supportOverlaps then SupportOverlapContinuity
    else NewHistory
  }

  predicate ExtentOk(r: Relation, postUniqueZ: bool, c: Config) {
    && r.extentStepX <= c.maximumSizeRelativeStep
    && r.extentStepY <= c.maximumSizeRelativeStep
    && (postUniqueZ || r.extentStepZ <= c.maximumSizeRelativeStep)
  }

  /** The gates of one pair; the cost of a gap pair is never read. */
  function Evaluate(g: nat, h: nat, postUniqueZ: bool, r: Relation, c: Config): Pair
    requires UsableConfig(c)
  {
    if !(r.dt > 0.0) || r.dt > c.maximumObservationGap then Pair(g, h, false, false, 0.0, Gap)
    else
      var mode := AssociationMode(r, c);
      var step := if mode == AnchorContinuity then r.xy else r.supportSeparation;
      var zCost := if postUniqueZ then 0.0 else r.dz / Max(ZLimit(r, c), EPSILON);
      var extentCost := r.extentStepX + r.extentStepY + (if postUniqueZ then 0.0 else r.extentStepZ);
      var cost := step / c.maximumXyStep + zCost + extentCost;
      var reject :=
        if mode == NewHistory then XyGate
        else if !postUniqueZ && r.dz > ZLimit(r, c) then ZGate
        else if !ExtentOk(r, postUniqueZ, c) then ExtentGate
        else Accepted;
      Pair(g, h, reject == Accepted, postUniqueZ, cost, reject)
  }

  // ---------------------------------------------------------------- what the gates mean

  /** No faster than the vertical speed limit, beyond margin and uncertainty, and of similar height. */
  predicate SteadyHeight(r: Relation, c: Config) {
    && r.dz <= c.maximumZSpeed * r.dt + c.zStepMargin + r.verticalUncertainty
    && r.extentStepZ <= c.maximumSizeRelativeStep
  }

  /** Recent, close or overlapping, of similar horizontal extent, and steady in height where the group's height counts. */
  predicate Plausible(r: Relation, continuityOnly: bool, c: Config) {
    && 0.0 < r.dt <= c.maximumObservationGap
    && (r.xy <= c.maximumXyStep || r.supportOverlaps)
    && r.extentStepX <= c.maximumSizeRelativeStep && r.extentStepY <= c.maximumSizeRelativeStep
    && (continuityOnly || SteadyHeight(r, c))
  }

  /** What a lineage rescue needs of the measurements: recent, not plausible, yet steady in height where that counts. */
  predicate Rescuable(r: Relation, continuityOnly: bool, c: Config) {
    0.0 < r.dt <= c.maximumObservationGap && !Plausible(r, continuityOnly, c) && (continuityOnly || SteadyHeight(r, c))
  }

  lemma GatesExactly(g: nat, h: nat, continuityOnly: bool, r: Relation, c: Config)
    requires UsableConfig(c)
    ensures var p := Evaluate(g, h, continuityOnly, r, c);
            && (p.feasible <==> Plausible(r, continuityOnly, c))
            && (p.reject in {XyGate, ExtentGate} && LineageVertical(r, continuityOnly, c) <==> Rescuable(r, continuityOnly, c))
  {}

  /** The horizontal step that counts: of the anchors when they are close, else between the supports. */
  function StepOf(r: Relation, c: Config): real { if r.xy <= c.maximumXyStep then r.xy else r.supportSeparation }

  /** r is nowhere farther than r', and its height may differ at least as much. */
  predicate NoFarther(r: Relation, r': Relation, continuityOnly: bool, c: Config) {
    && StepOf(r, c) <= StepOf(r', c) && r.extentStepX <= r'.extentStepX && r.extentStepY <= r'.extentStepY
    && (!continuityOnly ==> 0.0 <= r.dz <= r'.dz && r.extentStepZ <= r'.extentStepZ && ZLimit(r', c) <= ZLimit(r, c))
  }

  predicate Nearer(r: Relation, r': Relation, continuityOnly: bool, c: Config) {
    || StepOf(r, c) < StepOf(r', c) || r.extentStepX < r'.extentStepX || r.extentStepY < r'.extentStepY
    || (!continuityOnly && (r.dz < r'.dz || r.extentStepZ < r'.extentStepZ))
  }

  lemma SignOfFactor(t: real, d: real)
    requires d > 0.0
    ensures (t * d >= 0.0 ==> t >= 0.0) && (t * d > 0.0 ==> t > 0.0)
  {}

  lemma QuotientLess(x: real, y: real, d: real)
    requires x <= y && d > 0.0
    ensures x / d <= y / d && (x < y ==> x / d < y / d)
  {
    var p, q := x / d, y / d;
    assert p * d == x && q * d == y;
    assert (q - p) * d == y - x;
    SignOfFactor(q - p, d);
  }

  lemma QuotientShrinks(x: real, d: real, d': real)
    requires 0.0 <= x && 0.0 < d' <= d
    ensures x / d <= x / d'
  {
    var p, q := x / d, x / d';
    assert p * d == x && q * d' == x;
    SignOfFactor(p, d);
    assert p * (d - d') >= 0.0;
    assert (q - p) * d' == p * (d - d');
    SignOfFactor(q - p, d');
  }

  /** The cost of two recent pairs: never more for the pair that is nowhere farther, and less if it is nearer somewhere. */
  lemma CostGrows(g: nat, h: nat, h': nat, continuityOnly: bool, r: Relation, r': Relation, c: Config)
    requires UsableConfig(c) && 0.0 < r.dt <= c.maximumObservationGap && 0.0 < r'.dt <= c.maximumObservationGap
    requires NoFarther(r, r', continuityOnly, c)
    ensures var p, p' := Evaluate(g, h, continuityOnly, r, c), Evaluate(g, h', continuityOnly, r', c);
            p.cost <= p'.cost && (Nearer(r, r', continuityOnly, c) ==> p.cost < p'.cost)
  {
    QuotientLess(StepOf(r, c), StepOf(r', c), c.maximumXyStep);
    if !continuityOnly {
      var d, d' := Max(ZLimit(r, c), EPSILON), Max(ZLimit(r', c), EPSILON);
      QuotientLess(r.dz, r'.dz, d);
      QuotientShrinks(r'.dz, d, d');
    }
  }

  /** Each limit fully used costs one, nothing used costs nothing, and heights do not count for continuity-only groups. */
  lemma CostUnits(g: nat, h: nat, continuityOnly: bool, r: Relation, c: Config)
    requires UsableConfig(c) && 0.0 < r.dt <= c.maximumObservationGap && ZLimit(r, c) >= EPSILON
    ensures var cost := Evaluate(g, h, continuityOnly, r, c).cost;
            var extents := r.extentStepX + r.extentStepY + if continuityOnly then 0.0 else r.extentStepZ;
            && (StepOf(r, c) == 0.0 && (continuityOnly || r.dz == 0.0) ==> cost == extents)
            && (StepOf(r, c) == c.maximumXyStep && (continuityOnly || r.dz == 0.0) ==> cost == 1.0 + extents)
            && (StepOf(r, c) == 0.0 && !continuityOnly && r.dz == ZLimit(r, c) ==> cost == 1.0 + extents)
  {}

  // ---------------------------------------------------------------- the pair table

  /** No group and history are paired twice. */
  ghost predicate UniquePairs(pairs: seq<Pair>) {
    forall i, j :: 0 <= i < j < |pairs| ==> pairs[i].group != pairs[j].group || pairs[i].history != pairs[j].history
  }

  ghost predicate PairTable(pairs: seq<Pair>, groups: nat, histories: nat) {
    && UniquePairs(pairs)
    && (forall i :: 0 <= i < |pairs| ==> pairs[i].group < groups && pairs[i].history < histories)
  }

  predicate Usable(g: GroupInput) { !g.ambiguous && g.finite }

  /** One relation per group and history. */
  ghost predicate Related(groups: seq<GroupInput>, relations: seq<seq<Relation>>, histories: nat) {
    |relations| == |groups| && forall g :: 0 <= g < |groups| ==> |relations[g]| == histories
  }

  function EvaluateAt(groups: seq<GroupInput>, relations: seq<seq<Relation>>, histories: nat, c: Config, g: nat, h: nat): Pair
    requires UsableConfig(c) && Related(groups, relations, histories) && g < |groups| && h < histories
  {
    Evaluate(g, h, groups[g].continuityOnly, relations[g][h], c)
  }

  /** The rows of the groups below g and the first h entries of group g; unusable groups have none. */
  function TableOf(groups: seq<GroupInput>, relations: seq<seq<Relation>>, histories: nat, c: Config, g: nat, h: nat): seq<Pair>
    requires UsableConfig(c) && Related(groups, relations, histories)
    requires g <= |groups| && h <= histories && (g == |groups| ==> h == 0)
    decreases g, h
  {
    if h > 0 then
      TableOf(groups, relations, histories, c, g, h - 1)
      + if Usable(groups[g]) then [EvaluateAt(groups, relations, histories, c, g, h - 1)] else []
    else if g > 0 then TableOf(groups, relations, histories, c, g - 1, histories)
    else []
  }

  /** p is the evaluated pair of a usable group and a history, and stands before row g, column h. */
  ghost predicate Entry(groups: seq<GroupInput>, relations: seq<seq<Relation>>, histories: nat, c: Config, g: nat, h: nat, p: Pair)
    requires UsableConfig(c) && Related(groups, relations, histories)
  {
    && p.group < |groups| && p.history < histories && Usable(groups[p.group])
    && (p.group < g || (p.group == g && p.history < h))
    && p == EvaluateAt(groups, relations, histories, c, p.group, p.history)
  }

  ghost predicate Entries(groups: seq<GroupInput>, relations: seq<seq<Relation>>, histories: nat, c: Config, g: nat, h: nat, pairs: seq<Pair>)
    requires UsableConfig(c) && Related(groups, relations, histories)
  {
    forall i :: 0 <= i < |pairs| ==> Entry(groups, relations, histories, c, g, h, pairs[i])
  }

  lemma EntriesGrow(groups: seq<GroupInput>, relations: seq<seq<Relation>>, histories: nat, c: Config, g: nat, h: nat, pairs: seq<Pair>)
    requires UsableConfig(c) && Related(groups, relations, histories) && g < |groups| && h < histories && Usable(groups[g])
    requires UniquePairs(pairs) && Entries(groups, relations, histories, c, g, h, pairs)
    ensures var more := pairs + [EvaluateAt(groups, relations, histories, c, g, h)];
            UniquePairs(more) && Entries(groups, relations, histories, c, g, h + 1, more)
  {
    var more := pairs + [EvaluateAt(groups, relations, histories, c, g, h)];
    forall i | 0 <= i < |more| ensures Entry(groups, relations, histories, c, g, h + 1, more[i]) {
      if i < |pairs| {
        assert Entry(groups, relations, histories, c, g, h, pairs[i]);
      }
    }
    forall i, j | 0 <= i < j < |more| ensures more[i].group != more[j].group || more[i].history != more[j].history {
      if j == |pairs| {
        assert Entry(groups, relations, histories, c, g, h, pairs[i]);
      }
    }
  }

  lemma EntriesLater(groups: seq<GroupInput>, relations: seq<seq<Relation>>, histories: nat, c: Config,
                     g: nat, h: nat, g': nat, h': nat, pairs: seq<Pair>)
    requires UsableConfig(c) && Related(groups, relations, histories) && Entries(groups, relations, histories, c, g, h, pairs)
    requires (g' == g && h <= h') || (g' == g + 1 && h == histories)
    ensures Entries(groups, relations, histories, c, g', h', pairs)
  {
    forall i | 0 <= i < |pairs| ensures Entry(groups, relations, histories, c, g', h', pairs[i]) {
      assert Entry(groups, relations, histories, c, g, h, pairs[i]);
    }
  }

  lemma {:induction false} TableEntries(groups: seq<GroupInput>, relations: seq<seq<Relation>>, histories: nat, c: Config, g: nat, h: nat)
    requires UsableConfig(c) && Related(groups, relations, histories)
    requires g <= |groups| && h <= histories && (g == |groups| ==> h == 0)
    ensures UniquePairs(TableOf(groups, relations, histories, c, g, h))
    ensures Entries(groups, relations, histories, c, g, h, TableOf(groups, relations, histories, c, g, h))
    decreases g, h
  {
    if h > 0 {
      TableEntries(groups, relations, histories, c, g, h - 1);
      var pairs := TableOf(groups, relations, histories, c, g, h - 1);
      if Usable(groups[g]) {
        EntriesGrow(groups, relations, histories, c, g, h - 1, pairs);
      } else {
        EntriesLater(groups, relations, histories, c, g, h - 1, g, h, pairs);
        assert pairs + [] == pairs;
      }
    } else if g > 0 {
      TableEntries(groups, relations, histories, c, g - 1, histories);
      EntriesLater(groups, relations, histories, c, g - 1, histories, g, 0, TableOf(groups, relations, histories, c, g - 1, histories));
    }
  }

  lemma {:induction false} TableComplete(groups: seq<GroupInput>, relations: seq<seq<Relation>>, histories: nat, c: Config,
                                         g: nat, h: nat, x: nat, y: nat)
    requires UsableConfig(c) && Related(groups, relations, histories)
    requires g <= |groups| && h <= histories && (g == |groups| ==> h == 0)
    requires x < |groups| && y < histories && Usable(groups[x]) && (x < g || (x == g && y < h))
    ensures EvaluateAt(groups, relations, histories, c, x, y) in TableOf(groups, relations, histories, c, g, h)
    decreases g, h
  {
    if h > 0 {
      if x != g || y != h - 1 {
        TableComplete(groups, relations, histories, c, g, h - 1, x, y);
      }
    } else {
      TableComplete(groups, relations, histories, c, g - 1, histories, x, y);
    }
  }

  /** The table holds the evaluated pair of every usable group with every history, each once, and nothing else. */
  ghost predicate WholeTable(groups: seq<GroupInput>, relations: seq<seq<Relation>>, histories: nat, c: Config, pairs: seq<Pair>)
    requires UsableConfig(c) && Related(groups, relations, histories)
  {
    && PairTable(pairs, |groups|, histories)
    && (forall i :: 0 <= i < |pairs| ==> Entry(groups, relations, histories, c, |groups|, 0, pairs[i]))
    && (forall g: nat, h: nat :: g < |groups| && h < histories && Usable(groups[g]) ==>
          EvaluateAt(groups, relations, histories, c, g, h) in pairs)
  }

  method BuildPairs(groups: seq<GroupInput>, relations: seq<seq<Relation>>, histories: nat, c: Config) returns (pairs: seq<Pair>)
    requires UsableConfig(c) && Related(groups, relations, histories)
    ensures WholeTable(groups, relations, histories, c, pairs)
  {
    pairs := [];
    for g := 0 to |groups|
      invariant pairs == TableOf(groups, relations, histories, c, g, 0)
    {
      if !groups[g].ambiguous && groups[g].finite {
        for h := 0 to histories
          invariant pairs == TableOf(groups, relations, histories, c, g, h)
        {
          pairs := pairs + [Evaluate(g, h, groups[g].continuityOnly, relations[g][h], c)];
        }
      } else {
        SkippedRow(groups, relations, histories, c, g, histories);
      }
    }
    TableEntries(groups, relations, histories, c, |groups|, 0);
    forall i | 0 <= i < |pairs| ensures pairs[i].group < |groups| && pairs[i].history < histories {
      assert Entry(groups, relations, histories, c, |groups|, 0, pairs[i]);
    }
    forall g: nat, h: nat | g < |groups| && h < histories && Usable(groups[g])
      ensures EvaluateAt(groups, relations, histories, c, g, h) in pairs
    {
      TableComplete(groups, relations, histories, c, |groups|, 0, g, h);
    }
  }

  lemma {:induction false} SkippedRow(groups: seq<GroupInput>, relations: seq<seq<Relation>>, histories: nat, c: Config, g: nat, h: nat)
    requires UsableConfig(c) && Related(groups, relations, histories) && g < |groups| && h <= histories && !Usable(groups[g])
    ensures TableOf(groups, relations, histories, c, g, h) == TableOf(groups, relations, histories, c, g, 0)
  {
    if h > 0 {
      SkippedRow(groups, relations, histories, c, g, h - 1);
    }
  }

  // ---------------------------------------------------------------- the best pair of one group or one history

  datatype Side = OfGroup | OfHistory

  predicate On(p: Pair, side: Side, key: nat) {
    p.feasible && key == (match side case OfGroup => p.group case OfHistory => p.history)
  }

  /** Pair i is the only feasible pair of its side within the margin of its cost. */
  ghost predicate Undisputed(pairs: seq<Pair>, side: Side, key: nat, i: nat, margin: real)
    requires i < |pairs|
  {
    On(pairs[i], side, key)
    && forall j :: 0 <= j < |pairs| && j != i && On(pairs[j], side, key) ==> pairs[j].cost > pairs[i].cost + margin
  }

  function Competitors(pairs: seq<Pair>, side: Side, key: nat, bound: real): nat {
    if pairs == [] then 0
    else
      var last := pairs[|pairs| - 1];
      var rest := Competitors(pairs[..|pairs| - 1], side, key, bound);
      if On(last, side, key) && last.cost <= bound then rest + 1 else rest
  }

  lemma {:induction false} NoCompetitor(pairs: seq<Pair>, side: Side, key: nat, bound: real)
    ensures Competitors(pairs, side, key, bound) == 0 <==>
              forall j :: 0 <= j < |pairs| && On(pairs[j], side, key) ==> pairs[j].cost > bound
  {
    if pairs != [] {
      var front := pairs[..|pairs| - 1];
      NoCompetitor(front, side, key, bound);
      assert forall j :: 0 <= j < |front| ==> front[j] == pairs[j];
    }
  }

  lemma {:induction false} OneCompetitor(pairs: seq<Pair>, side: Side, key: nat, i: nat, bound: real)
    requires i < |pairs| && On(pairs[i], side, key) && pairs[i].cost <= bound
    ensures Competitors(pairs, side, key, bound) >= 1
    ensures Competitors(pairs, side, key, bound) == 1 <==>
              forall j :: 0 <= j < |pairs| && j != i && On(pairs[j], side, key) ==> pairs[j].cost > bound
  {
    var front := pairs[..|pairs| - 1];
    if i < |front| {
      OneCompetitor(front, side, key, i, bound);
      assert forall j :: 0 <= j < |front| ==> front[j] == pairs[j];
    } else {
      NoCompetitor(front, side, key, bound);
      assert forall j :: 0 <= j < |front| ==> front[j] == pairs[j];
    }
  }

  /** The index the scan ends with: a pair replaces the best so far when cheaper by more than EPSILON. */
  function Best(pairs: seq<Pair>, side: Side, key: nat): (best: int)
    ensures -1 <= best < |pairs|
    ensures best >= 0 ==> On(pairs[best], side, key)
  {
    if pairs == [] then -1
    else
      var k := |pairs| - 1;
      var best := Best(pairs[..k], side, key);
      if On(pairs[k], side, key) && (best == -1 || pairs[k].cost + EPSILON < pairs[best].cost) then k else best
  }

  /** The scan finds a pair if there is one, and none is cheaper by more than EPSILON. */
  lemma {:induction false} BestIsCheapest(pairs: seq<Pair>, side: Side, key: nat)
    ensures var best := Best(pairs, side, key);
            forall j :: 0 <= j < |pairs| && On(pairs[j], side, key) ==> best >= 0 && pairs[best].cost <= pairs[j].cost + EPSILON
  {
    if pairs != [] {
      var k := |pairs| - 1;
      BestIsCheapest(pairs[..k], side, key);
      assert forall j :: 0 <= j < k ==> pairs[..k][j] == pairs[j];
    }
  }

  method CountCompetitors(pairs: seq<Pair>, side: Side, key: nat, bound: real) returns (competitors: nat)
    ensures competitors == Competitors(pairs, side, key, bound)
  {
    competitors := 0;
    for k := 0 to |pairs|
      invariant competitors == Competitors(pairs[..k], side, key, bound)
    {
      assert pairs[..k + 1][..k] == pairs[..k];
      if On(pairs[k], side, key) && pairs[k].cost <= bound {
        competitors := competitors + 1;
      }
    }
    assert pairs[..|pairs|] == pairs;
  }

  /** The scan of one group's or one history's pairs: the best, and how many lie within the margin of it. */
  method ScanSide(pairs: seq<Pair>, side: Side, key: nat, margin: real) returns (best: int, competitors: nat)
    requires margin >= 0.0
    ensures best == Best(pairs, side, key)
    ensures competitors == if best == -1 then 0 else Competitors(pairs, side, key, pairs[best].cost + margin)
  {
    best := -1;
    for k := 0 to |pairs|
      invariant best == Best(pairs[..k], side, key)
    {
      assert pairs[..k + 1][..k] == pairs[..k];
      if On(pairs[k], side, key) && (best == -1 || pairs[k].cost + EPSILON < pairs[best].cost) {
        best := k;
      }
    }
    assert pairs[..|pairs|] == pairs;
    competitors := 0;
    if best != -1 {
      competitors := CountCompetitors(pairs, side, key, pairs[best].cost + margin);
    }
  }

  /** A lone competitor is undisputed; an undisputed pair is found whenever the margin is at least EPSILON. */
  lemma {:induction false} BestUndisputed(pairs: seq<Pair>, side: Side, key: nat, margin: real)
    requires margin >= 0.0
    ensures var best := Best(pairs, side, key);
            best >= 0 ==>
              && Competitors(pairs, side, key, pairs[best].cost + margin) >= 1
              && (Competitors(pairs, side, key, pairs[best].cost + margin) == 1 <==> Undisputed(pairs, side, key, best, margin))
    ensures margin >= EPSILON ==>
              forall i :: 0 <= i < |pairs| && Undisputed(pairs, side, key, i, margin) ==> Best(pairs, side, key) == i
  {
    var best := Best(pairs, side, key);
    BestIsCheapest(pairs, side, key);
    if best >= 0 {
      OneCompetitor(pairs, side, key, best, pairs[best].cost + margin);
    }
  }

  // ---------------------------------------------------------------- exact association

  /** Pair i beats, by more than the margin, every other feasible pair of its group or of its history. */
  ghost predicate ReciprocalUnique(pairs: seq<Pair>, i: nat, margin: real)
    requires i < |pairs|
  {
    && Undisputed(pairs, OfGroup, pairs[i].group, i, margin)
    && Undisputed(pairs, OfHistory, pairs[i].history, i, margin)
  }

  ghost predicate HasFeasible(pairs: seq<Pair>, side: Side, key: nat) {
    exists i :: 0 <= i < |pairs| && On(pairs[i], side, key)
  }

  /** Some reciprocal-unique pair joins group g and history h. */
  ghost predicate ExactPair(pairs: seq<Pair>, g: nat, h: nat, margin: real) {
    exists i :: 0 <= i < |pairs| && pairs[i].group == g && pairs[i].history == h && ReciprocalUnique(pairs, i, margin)
  }

  /** The history group g is matched to exactly, or -1. */
  function ExactMatch(pairs: seq<Pair>, g: nat, margin: real): int {
    var best := Best(pairs, OfGroup, g);
    if best == -1 || Competitors(pairs, OfGroup, g, pairs[best].cost + margin) > 1 then -1
    else
      var h := pairs[best].history;
      var rival := Best(pairs, OfHistory, h);
      if rival >= 0 && Competitors(pairs, OfHistory, h, pairs[rival].cost + margin) == 1 && pairs[rival].group == g then h else -1
  }

  method AssociateGroup(pairs: seq<Pair>, g: nat, margin: real) returns (matched: int, ambiguous: bool)
    requires margin >= 0.0
    ensures matched == ExactMatch(pairs, g, margin)
    ensures ambiguous <==> matched == -1 && HasFeasible(pairs, OfGroup, g)
  {
    matched, ambiguous := -1, false;
    var best, competitors := ScanSide(pairs, OfGroup, g, margin);
    BestIsCheapest(pairs, OfGroup, g);
    assert best >= 0 ==> HasFeasible(pairs, OfGroup, g);
    if competitors > 1 {
      ambiguous := true;
    } else if best >= 0 {
      var h := pairs[best].history;
      var historyBest, rivals := ScanSide(pairs, OfHistory, h, margin);
      if rivals == 1 && pairs[historyBest].group == g {
        matched := h;
      } else {
        ambiguous := true;
      }
    }
  }

  /** Every exact match is reciprocal-unique. */
  lemma ExactIsReciprocal(pairs: seq<Pair>, g: nat, margin: real)
    requires margin >= 0.0 && UniquePairs(pairs)
    ensures ExactMatch(pairs, g, margin) >= 0 ==> ExactPair(pairs, g, ExactMatch(pairs, g, margin), margin)
  {
    var h := ExactMatch(pairs, g, margin);
    if h >= 0 {
      var best := Best(pairs, OfGroup, g);
      SamePair(pairs, best, Best(pairs, OfHistory, h));
      BestUndisputed(pairs, OfGroup, g, margin);
      BestUndisputed(pairs, OfHistory, h, margin);
      assert ReciprocalUnique(pairs, best, margin);
    }
  }

  lemma SamePair(pairs: seq<Pair>, i: nat, j: nat)
    requires UniquePairs(pairs) && i < |pairs| && j < |pairs|
    requires pairs[i].group == pairs[j].group && pairs[i].history == pairs[j].history
    ensures i == j
  {
  }

  lemma ReciprocalIsMatched(pairs: seq<Pair>, g: nat, h: nat, margin: real)
    requires margin >= EPSILON && ExactPair(pairs, g, h, margin)
    ensures ExactMatch(pairs, g, margin) == h
  {
    BestUndisputed(pairs, OfGroup, g, margin);
    BestUndisputed(pairs, OfHistory, h, margin);
  }

  /**
   Whether every reciprocal-unique pair is matched depends on the margin alone: it holds for all
   pair tables exactly when the margin is at least EPSILON.
   */
  lemma MarginDecides(margin: real)
    requires margin >= 0.0
    ensures margin >= EPSILON <==>
              forall pairs, g, h :: UniquePairs(pairs) && ExactPair(pairs, g, h, margin) ==> ExactMatch(pairs, g, margin) == h
  {
    if margin >= EPSILON {
      forall pairs, g, h | UniquePairs(pairs) && ExactPair(pairs, g, h, margin)
        ensures ExactMatch(pairs, g, margin) == h
      {
        ReciprocalIsMatched(pairs, g, h, margin);
      }
    } else {
      var pairs := SmallMarginMiss(margin);
    }
  }

  /** The second pair is cheaper by more than the margin, yet the scan keeps the first and the group is ambiguous. */
  lemma SmallMarginMiss(margin: real) returns (pairs: seq<Pair>)
    requires 0.0 <= margin < EPSILON
    ensures pairs == [Pair(0, 0, true, false, EPSILON, Accepted), Pair(0, 1, true, false, 0.0, Accepted)]
    ensures UniquePairs(pairs) && ExactPair(pairs, 0, 1, margin) && ExactMatch(pairs, 0, margin) == -1
  {
    pairs := [Pair(0, 0, true, false, EPSILON, Accepted), Pair(0, 1, true, false, 0.0, Accepted)];
    assert ReciprocalUnique(pairs, 1, margin);
    assert pairs[..1] == [pairs[0]] && pairs[..1][..0] == [];
    assert Best(pairs[..1], OfGroup, 0) == 0;
    assert Best(pairs, OfGroup, 0) == 0;
    assert Competitors(pairs[..1], OfGroup, 0, EPSILON + margin) == 1;
    assert Competitors(pairs, OfGroup, 0, EPSILON + margin) == 2;
  }

  /** Two groups are never matched exactly to one history. */
  lemma ExactOneToOne(pairs: seq<Pair>, g: nat, g': nat, h: nat, h': nat, margin: real)
    requires margin >= 0.0 && ExactPair(pairs, g, h, margin) && ExactPair(pairs, g', h', margin) && g != g'
    ensures h != h'
  {
    var i :| 0 <= i < |pairs| && pairs[i].group == g && pairs[i].history == h && ReciprocalUnique(pairs, i, margin);
    var j :| 0 <= j < |pairs| && pairs[j].group == g' && pairs[j].history == h' && ReciprocalUnique(pairs, j, margin);
    assert On(pairs[i], OfHistory, h) && On(pairs[j], OfHistory, h');
  }

  // ---------------------------------------------------------------- lineage proposals

  datatype Snapshot = Snapshot(stamp: real, components: seq<nat>)

  /** usable: a valid MATCHED observation that meets the observation contract. */
  datatype LineageObservation = LineageObservation(
    usable: bool, seedGroupId: nat, offset: nat, previousStamp: real, previousComponent: nat)

  datatype Proposal = Proposal(group: nat, history: nat, offset: nat)

  ghost predicate OnlySeed(groups: seq<GroupInput>, id: nat, g: nat) {
    && g < |groups| && groups[g].frameGroupId == id
    && (forall q :: 0 <= q < |groups| && q != g ==> groups[q].frameGroupId != id)
  }

  lemma TwoSeeds(groups: seq<GroupInput>, id: nat, a: nat, b: nat)
    requires a < b < |groups| && groups[a].frameGroupId == id && groups[b].frameGroupId == id
    ensures forall g :: !OnlySeed(groups, id, g)
  {
    forall g ensures !OnlySeed(groups, id, g) {
      var other := if g == a then b else a;
      assert groups[other].frameGroupId == id;
    }
  }

  /** The group with the seed id, or the group count when none or several carry it. */
  method FindSeed(groups: seq<GroupInput>, id: nat) returns (seed: nat)
    ensures seed <= |groups|
    ensures seed < |groups| <==> exists g :: OnlySeed(groups, id, g)
    ensures seed < |groups| ==> OnlySeed(groups, id, seed)
  {
    seed := |groups|;
    for g := 0 to |groups|
      invariant seed == |groups| || seed < g
      invariant seed == |groups| ==> forall q :: 0 <= q < g ==> groups[q].frameGroupId != id
      invariant seed < g ==> groups[seed].frameGroupId == id
      invariant seed < g ==> forall q :: 0 <= q < g && q != seed ==> groups[q].frameGroupId != id
    {
      if groups[g].frameGroupId == id {
        if seed != |groups| {
          TwoSeeds(groups, id, seed, g);
          return |groups|;
        }
        seed := g;
      }
    }
    assert seed < |groups| ==> OnlySeed(groups, id, seed);
  }

  predicate Remembers(provenance: seq<Snapshot>, stamp: real, component: nat) {
    exists s | s in provenance :: Abs(s.stamp - stamp) <= EPSILON && component in s.components
  }

  ghost predicate OnlyMemory(provenance: seq<seq<Snapshot>>, stamp: real, component: nat, history: nat) {
    && history < |provenance| && Remembers(provenance[history], stamp, component)
    && forall h :: 0 <= h < |provenance| && Remembers(provenance[h], stamp, component) ==> h == history
  }

  /** The only history that remembers the component at the stamp, or the history count when none or several do. */
  method FindProvenance(provenance: seq<seq<Snapshot>>, stamp: real, component: nat) returns (history: nat)
    ensures history <= |provenance|
    ensures history < |provenance| ==> OnlyMemory(provenance, stamp, component, history)
    ensures history == |provenance| ==> forall h :: !OnlyMemory(provenance, stamp, component, h)
  {
    var found: seq<nat> := [];
    for h := 0 to |provenance|
      invariant forall q :: 0 <= q < |found| ==> found[q] < h && Remembers(provenance[found[q]], stamp, component)
      invariant forall q, r :: 0 <= q < r < |found| ==> found[q] < found[r]
      invariant forall q: nat :: q < h && Remembers(provenance[q], stamp, component) ==> q in found
    {
      if Remembers(provenance[h], stamp, component) { found := found + [h]; }
    }
    history := if |found| == 1 then found[0] else |provenance|;
    forall h ensures |found| != 1 ==> !OnlyMemory(provenance, stamp, component, h) {
      if |found| > 1 {
        assert found[0] < found[1];
      }
    }
  }

  method FeasibleHistories(pairs: seq<Pair>, histories: nat) returns (flags: seq<bool>)
    requires forall i :: 0 <= i < |pairs| ==> pairs[i].history < histories
    ensures |flags| == histories && forall h :: 0 <= h < histories ==> (flags[h] <==> HasFeasible(pairs, OfHistory, h))
  {
    flags := seq(histories, _ => false);
    for k := 0 to |pairs|
      invariant |flags| == histories
      invariant forall h :: 0 <= h < histories ==> (flags[h] <==> exists i :: 0 <= i < k && On(pairs[i], OfHistory, h))
    {
      if pairs[k].feasible { flags := flags[pairs[k].history := true]; }
    }
  }

  /** The vertical checks that stay with the current group and the existing history. */
  predicate LineageVertical(r: Relation, continuityOnly: bool, c: Config) {
    && r.dt > 0.0 && r.dt <= c.maximumObservationGap
    && (continuityOnly || (r.dz <= ZLimit(r, c) && r.extentStepZ <= c.maximumSizeRelativeStep))
  }

  ghost predicate RejectedPair(pairs: seq<Pair>, g: nat, h: nat) {
    exists i :: 0 <= i < |pairs| && pairs[i].group == g && pairs[i].history == h && pairs[i].reject in {XyGate, ExtentGate}
  }

  method FindRejectedPair(pairs: seq<Pair>, g: nat, h: nat) returns (found: bool)
    requires UniquePairs(pairs)
    ensures found <==> RejectedPair(pairs, g, h)
  {
    found := false;
    for k := 0 to |pairs|
      invariant !found
      invariant forall i :: 0 <= i < k ==> pairs[i].group != g || pairs[i].history != h
    {
      if pairs[k].group == g && pairs[k].history == h {
        found := pairs[k].reject in {XyGate, ExtentGate};
        return;
      }
    }
  }

  /** The data one frame's association works on. */
  datatype FrameData = FrameData(
    groups: seq<GroupInput>, relations: seq<seq<Relation>>, provenance: seq<seq<Snapshot>>, observations: seq<LineageObservation>)

  ghost predicate FrameOk(d: FrameData, c: Config) {
    UsableConfig(c) && Related(d.groups, d.relations, |d.provenance|)
  }

  /** A proposal may only name an unmatched, unambiguous group and a history without any exact-feasible pair. */
  ghost predicate Admissible(groups: seq<GroupInput>, pairs: seq<Pair>, matched: seq<int>, ambiguous: seq<bool>, histories: nat, p: Proposal) {
    && p.group < |groups| && p.group < |matched| && p.group < |ambiguous| && p.history < histories
    && matched[p.group] < 0 && !groups[p.group].ambiguous && !ambiguous[p.group]
    && !HasFeasible(pairs, OfHistory, p.history)
    && RejectedPair(pairs, p.group, p.history)
  }

  /** Observation o proposes p: its seed names one group, one history remembers its component, and the vertical checks hold. */
  ghost predicate Proposes(d: FrameData, c: Config, pairs: seq<Pair>, matched: seq<int>, ambiguous: seq<bool>, o: LineageObservation, p: Proposal)
    requires FrameOk(d, c)
  {
    && o.usable && p.offset == o.offset
    && OnlySeed(d.groups, o.seedGroupId, p.group)
    && OnlyMemory(d.provenance, o.previousStamp, o.previousComponent, p.history)
    && Admissible(d.groups, pairs, matched, ambiguous, |d.provenance|, p)
    && LineageVertical(d.relations[p.group][p.history], d.groups[p.group].continuityOnly, c)
  }

  ghost predicate ProposedBy(d: FrameData, c: Config, pairs: seq<Pair>, matched: seq<int>, ambiguous: seq<bool>, n: nat, p: Proposal)
    requires FrameOk(d, c) && n <= |d.observations|
  {
    exists k :: 0 <= k < n && Proposes(d, c, pairs, matched, ambiguous, d.observations[k], p)
  }

  /** What one observation proposes, if anything. */
  method ProposeOne(d: FrameData, c: Config, pairs: seq<Pair>, matched: seq<int>, ambiguous: seq<bool>, feasible: seq<bool>, o: LineageObservation)
    returns (proposals: seq<Proposal>)
    requires FrameOk(d, c) && PairTable(pairs, |d.groups|, |d.provenance|) && |matched| == |ambiguous| == |d.groups|
    requires |feasible| == |d.provenance| && forall h :: 0 <= h < |feasible| ==> (feasible[h] <==> HasFeasible(pairs, OfHistory, h))
    ensures |proposals| <= 1 && forall p :: p in proposals <==> Proposes(d, c, pairs, matched, ambiguous, o, p)
  {
    proposals := [];
    if !o.usable {
      return;
    }
    var g := FindSeed(d.groups, o.seedGroupId);
    if g == |d.groups| || !(matched[g] < 0) || d.groups[g].ambiguous || ambiguous[g] {
      return;
    }
    var h := FindProvenance(d.provenance, o.previousStamp, o.previousComponent);
    if h == |d.provenance| || feasible[h] {
      return;
    }
    var rejected := FindRejectedPair(pairs, g, h);
    if rejected && LineageVertical(d.relations[g][h], d.groups[g].continuityOnly, c) {
      proposals := [Proposal(g, h, o.offset)];
    }
  }

  /** Observation k is behind proposal p. */
  ghost predicate Behind(d: FrameData, c: Config, pairs: seq<Pair>, matched: seq<int>, ambiguous: seq<bool>, k: nat, p: Proposal)
    requires FrameOk(d, c)
  {
    k < |d.observations| && Proposes(d, c, pairs, matched, ambiguous, d.observations[k], p)
  }

  /** The proposals of the first n observations in order; `from` says which observation each one is of. */
  ghost predicate Listed(d: FrameData, c: Config, pairs: seq<Pair>, matched: seq<int>, ambiguous: seq<bool>, n: nat,
                         proposals: seq<Proposal>, from: seq<nat>)
    requires FrameOk(d, c)
  {
    && |from| == |proposals| && (forall i, j :: 0 <= i < j < |from| ==> from[i] < from[j])
    && (forall i :: 0 <= i < |from| ==> from[i] < n && Behind(d, c, pairs, matched, ambiguous, from[i], proposals[i]))
    && (forall k: nat, p :: k < n && Behind(d, c, pairs, matched, ambiguous, k, p) ==> k in from)
  }

  lemma ListedSkips(d: FrameData, c: Config, pairs: seq<Pair>, matched: seq<int>, ambiguous: seq<bool>, n: nat,
                    proposals: seq<Proposal>, from: seq<nat>)
    requires FrameOk(d, c) && Listed(d, c, pairs, matched, ambiguous, n, proposals, from)
    requires forall p :: !Behind(d, c, pairs, matched, ambiguous, n, p)
    ensures Listed(d, c, pairs, matched, ambiguous, n + 1, proposals, from)
  {}

  lemma ListedGrows(d: FrameData, c: Config, pairs: seq<Pair>, matched: seq<int>, ambiguous: seq<bool>, n: nat,
                    proposals: seq<Proposal>, from: seq<nat>, p: Proposal)
    requires FrameOk(d, c) && Listed(d, c, pairs, matched, ambiguous, n, proposals, from)
    requires Behind(d, c, pairs, matched, ambiguous, n, p)
    ensures Listed(d, c, pairs, matched, ambiguous, n + 1, proposals + [p], from + [n])
  {
    var more := from + [n];
    forall i | 0 <= i < |more| ensures more[i] < n + 1 && Behind(d, c, pairs, matched, ambiguous, more[i], (proposals + [p])[i]) {
      assert i < |from| ==> more[i] == from[i] && (proposals + [p])[i] == proposals[i];
    }
    forall k: nat, q | k < n + 1 && Behind(d, c, pairs, matched, ambiguous, k, q) ensures k in more {
      assert more[|from|] == n;
      assert k in from ==> k in more;
    }
  }

  /** Exactly what the observations propose, in their order. */
  method Propose(d: FrameData, c: Config, pairs: seq<Pair>, matched: seq<int>, ambiguous: seq<bool>) returns (proposals: seq<Proposal>, ghost from: seq<nat>)
    requires FrameOk(d, c) && PairTable(pairs, |d.groups|, |d.provenance|) && |matched| == |ambiguous| == |d.groups|
    ensures Listed(d, c, pairs, matched, ambiguous, |d.observations|, proposals, from)
    ensures forall p :: p in proposals <==> ProposedBy(d, c, pairs, matched, ambiguous, |d.observations|, p)
  {
    proposals, from := [], [];
    var feasible := FeasibleHistories(pairs, |d.provenance|);
    for k := 0 to |d.observations|
      invariant Listed(d, c, pairs, matched, ambiguous, k, proposals, from)
      invariant forall p :: p in proposals <==> ProposedBy(d, c, pairs, matched, ambiguous, k, p)
    {
      var more := ProposeOne(d, c, pairs, matched, ambiguous, feasible, d.observations[k]);
      if more == [] {
        ListedSkips(d, c, pairs, matched, ambiguous, k, proposals, from);
        assert proposals + more == proposals;
      } else {
        assert more[0] in more && more == [more[0]];
        ListedGrows(d, c, pairs, matched, ambiguous, k, proposals, from, more[0]);
        from := from + [k];
      }
      proposals := proposals + more;
      forall p ensures p in proposals <==> ProposedBy(d, c, pairs, matched, ambiguous, k + 1, p) {
        ProposedNext(d, c, pairs, matched, ambiguous, k, p);
      }
    }
  }

  lemma ProposedNext(d: FrameData, c: Config, pairs: seq<Pair>, matched: seq<int>, ambiguous: seq<bool>, k: nat, p: Proposal)
    requires FrameOk(d, c) && k < |d.observations|
    ensures ProposedBy(d, c, pairs, matched, ambiguous, k + 1, p) <==>
              ProposedBy(d, c, pairs, matched, ambiguous, k, p) || Proposes(d, c, pairs, matched, ambiguous, d.observations[k], p)
  {}

  // ---------------------------------------------------------------- lineage selection

  /** Proposal k names the one history proposed for its group, from the newest source frame alone. */
  ghost predicate Settled(proposals: seq<Proposal>, g: nat, k: nat) {
    && k < |proposals| && proposals[k].group == g
    && (forall q :: 0 <= q < |proposals| && q != k && proposals[q].group == g ==>
          proposals[q].history == proposals[k].history && proposals[q].offset > proposals[k].offset)
  }

  /** Proposal k is the first of the newest for its group. */
  ghost predicate Newest(proposals: seq<Proposal>, g: nat, k: nat) {
    && k < |proposals| && proposals[k].group == g
    && (forall q :: 0 <= q < |proposals| && q != k && proposals[q].group == g ==>
          proposals[q].offset > proposals[k].offset || (proposals[q].offset == proposals[k].offset && q > k))
  }

  ghost predicate NoProposal(proposals: seq<Proposal>, g: nat) {
    forall q :: 0 <= q < |proposals| ==> proposals[q].group != g
  }

  method SelectNewest(proposals: seq<Proposal>, g: nat) returns (selected: int, conflict: bool)
    ensures -1 <= selected < |proposals|
    ensures selected == -1 <==> NoProposal(proposals, g)
    ensures selected >= 0 ==> Newest(proposals, g, selected)
    ensures !conflict <==> NoProposal(proposals, g) || (selected >= 0 && Settled(proposals, g, selected))
  {
    selected, conflict := -1, false;
    var first: int := -1;
    var mixed, ties := false, 0;
    for k := 0 to |proposals|
      invariant -1 <= selected < k && -1 <= first < k && (selected == -1 <==> first == -1)
      invariant first == -1 <==> forall q :: 0 <= q < k ==> proposals[q].group != g
      invariant first >= 0 ==> proposals[first].group == g && proposals[selected].group == g
      invariant mixed <==> exists q :: 0 <= q < k && proposals[q].group == g && proposals[q].history != proposals[first].history
      invariant forall q :: 0 <= q < k && proposals[q].group == g ==>
                  proposals[q].offset > proposals[selected].offset || (proposals[q].offset == proposals[selected].offset && q >= selected)
      invariant selected >= 0 ==> ties >= 1
      invariant ties > 1 <==> exists q :: 0 <= q < k && q != selected && proposals[q].group == g
                                          && proposals[q].offset == proposals[selected].offset
    {
      if proposals[k].group == g {
        if first == -1 {
          first := k;
        } else if proposals[first].history != proposals[k].history {
          mixed := true;
        }
        if selected == -1 || proposals[k].offset < proposals[selected].offset {
          selected, ties := k, 1;
        } else if proposals[k].offset == proposals[selected].offset {
          ties := ties + 1;
        }
      }
    }
    conflict := mixed || ties > 1;
  }

  ghost predicate Claims(proposals: seq<Proposal>, selected: seq<int>, g: nat, h: nat) {
    g < |selected| && 0 <= selected[g] < |proposals| && proposals[selected[g]].history == h
  }

  /** Another group selected the same history. */
  ghost predicate Contested(proposals: seq<Proposal>, selected: seq<int>, g: nat) {
    exists other: nat, h :: other != g && Claims(proposals, selected, g, h) && Claims(proposals, selected, other, h)
  }

  method ContestedFlags(proposals: seq<Proposal>, selected: seq<int>) returns (contested: seq<bool>)
    requires forall g :: 0 <= g < |selected| ==> -1 <= selected[g] < |proposals|
    ensures |contested| == |selected|
    ensures forall g :: 0 <= g < |selected| ==> (contested[g] <==> Contested(proposals, selected, g))
  {
    contested := [];
    for g := 0 to |selected|
      invariant |contested| == g
      invariant forall q :: 0 <= q < g ==> (contested[q] <==> Contested(proposals, selected, q))
    {
      var shared := false;
      if selected[g] >= 0 {
        var h := proposals[selected[g]].history;
        assert Claims(proposals, selected, g, h);
        for other := 0 to |selected|
          invariant shared <==> exists q: nat :: q < other && q != g && Claims(proposals, selected, q, h)
        {
          if other != g && selected[other] >= 0 && proposals[selected[other]].history == h {
            assert Claims(proposals, selected, other, h);
            shared := true;
          }
        }
      }
      contested := contested + [shared];
    }
  }

  // ---------------------------------------------------------------- one frame

  /** Per group: the history matched (or -1), whether by lineage, and whether the group is ambiguous. */
  datatype Outcome = Outcome(matched: int, lineage: bool, ambiguous: bool)

  /** The results of the phases that precede the final decision. */
  datatype Phases = Phases(
    exact: seq<int>, exactAmbiguous: seq<bool>, proposals: seq<Proposal>,
    selected: seq<int>, conflict: seq<bool>, contested: seq<bool>)

  ghost predicate PhasesOk(groups: seq<GroupInput>, pairs: seq<Pair>, histories: nat, margin: real, ph: Phases) {
    && |ph.exact| == |ph.exactAmbiguous| == |ph.selected| == |ph.conflict| == |ph.contested| == |groups|
    && (forall k :: 0 <= k < |ph.proposals| ==>
          Admissible(groups, pairs, ph.exact, ph.exactAmbiguous, histories, ph.proposals[k]))
    && (forall g :: 0 <= g < |groups| ==>
          && ph.exact[g] == ExactMatch(pairs, g, margin)
          && (ph.exactAmbiguous[g] <==> ph.exact[g] == -1 && HasFeasible(pairs, OfGroup, g))
          && -1 <= ph.selected[g] < |ph.proposals|
          && (ph.selected[g] == -1 <==> NoProposal(ph.proposals, g))
          && (ph.selected[g] == -1 ==> !ph.conflict[g])
          && (ph.selected[g] >= 0 ==> Newest(ph.proposals, g, ph.selected[g]))
          && (ph.selected[g] >= 0 ==> (!ph.conflict[g] <==> Settled(ph.proposals, g, ph.selected[g])))
          && (ph.contested[g] <==> Contested(ph.proposals, ph.selected, g)))
  }

  /** Rescue an unambiguous group by its selected proposal, else keep the exact match; then gate by Z. */
  function Decide(groups: seq<GroupInput>, ph: Phases, verticalHolds: (nat, nat) -> bool, g: nat): Outcome
    requires |ph.exact| == |ph.exactAmbiguous| == |ph.selected| == |ph.conflict| == |ph.contested| == |groups| && g < |groups|
    requires ph.selected[g] < |ph.proposals|
  {
    var ambiguous := ph.exactAmbiguous[g] || ph.conflict[g] || ph.contested[g];
    var rescue := ph.selected[g] >= 0 && !ambiguous;
    var m := if rescue then ph.proposals[ph.selected[g]].history else ph.exact[g];
    Outcome(if m >= 0 && groups[g].continuityOnly && !verticalHolds(g, m) then -1 else m, rescue, ambiguous)
  }

  /** What a final match of group g rests on. */
  ghost predicate MatchGrounds(g: GroupInput, pairs: seq<Pair>, index: nat, o: Outcome, margin: real) {
    && !o.ambiguous && !g.ambiguous && g.finite && o.matched >= 0
    && if o.lineage then !HasFeasible(pairs, OfHistory, o.matched) && RejectedPair(pairs, index, o.matched)
       else ExactPair(pairs, index, o.matched, margin)
  }

  lemma Grounds(groups: seq<GroupInput>, pairs: seq<Pair>, histories: nat, margin: real, ph: Phases,
                verticalHolds: (nat, nat) -> bool, g: nat)
    requires PhasesOk(groups, pairs, histories, margin, ph) && PairTable(pairs, |groups|, histories) && margin >= 0.0 && g < |groups|
    requires forall i :: 0 <= i < |pairs| ==> !groups[pairs[i].group].ambiguous && groups[pairs[i].group].finite
    ensures var o := Decide(groups, ph, verticalHolds, g);
            o.matched >= 0 ==> MatchGrounds(groups[g], pairs, g, o, margin)
                               && (groups[g].continuityOnly ==> verticalHolds(g, o.matched))
  {
    var o := Decide(groups, ph, verticalHolds, g);
    if o.matched >= 0 {
      ExactIsReciprocal(pairs, g, margin);
      if o.lineage {
        assert Admissible(groups, pairs, ph.exact, ph.exactAmbiguous, histories, ph.proposals[ph.selected[g]]);
      } else {
        UnmatchedWhenProposed(groups, pairs, histories, margin, ph, g);
      }
    }
  }

  /** A group with an exact match has no proposal, so it is neither in conflict nor contested. */
  lemma UnmatchedWhenProposed(groups: seq<GroupInput>, pairs: seq<Pair>, histories: nat, margin: real, ph: Phases, g: nat)
    requires PhasesOk(groups, pairs, histories, margin, ph) && g < |groups|
    ensures ph.selected[g] >= 0 ==> ph.exact[g] < 0
    ensures ph.exact[g] >= 0 ==> !ph.conflict[g] && !ph.contested[g]
  {
    if ph.selected[g] >= 0 {
      assert Admissible(groups, pairs, ph.exact, ph.exactAmbiguous, histories, ph.proposals[ph.selected[g]]);
    }
  }

  lemma Uncontested(proposals: seq<Proposal>, selected: seq<int>, g: nat, g': nat, h: nat, h': nat)
    requires !Contested(proposals, selected, g) && g != g'
    requires Claims(proposals, selected, g, h) && Claims(proposals, selected, g', h')
    ensures h != h'
  {
  }

  lemma DifferentHistories(groups: seq<GroupInput>, pairs: seq<Pair>, histories: nat, margin: real, ph: Phases,
                           verticalHolds: (nat, nat) -> bool, g: nat, g': nat)
    requires PhasesOk(groups, pairs, histories, margin, ph) && PairTable(pairs, |groups|, histories) && margin >= 0.0
    requires forall i :: 0 <= i < |pairs| ==> !groups[pairs[i].group].ambiguous && groups[pairs[i].group].finite
    requires g < |groups| && g' < |groups| && g != g'
    requires Decide(groups, ph, verticalHolds, g).matched >= 0
    ensures Decide(groups, ph, verticalHolds, g).matched != Decide(groups, ph, verticalHolds, g').matched
  {
    var o, o' := Decide(groups, ph, verticalHolds, g), Decide(groups, ph, verticalHolds, g');
    Grounds(groups, pairs, histories, margin, ph, verticalHolds, g);
    Grounds(groups, pairs, histories, margin, ph, verticalHolds, g');
    if o'.matched >= 0 {
      if !o.lineage && !o'.lineage {
        ExactOneToOne(pairs, g, g', o.matched, o'.matched, margin);
      } else if o.lineage && o'.lineage {
        Uncontested(ph.proposals, ph.selected, g, g', o.matched, o'.matched);
      } else if o.lineage {
        ExactHasFeasible(pairs, g', o'.matched, margin);
      } else {
        ExactHasFeasible(pairs, g, o.matched, margin);
      }
    }
  }

  lemma ExactHasFeasible(pairs: seq<Pair>, g: nat, h: nat, margin: real)
    requires ExactPair(pairs, g, h, margin)
    ensures HasFeasible(pairs, OfHistory, h)
  {
    var i :| 0 <= i < |pairs| && pairs[i].group == g && pairs[i].history == h && ReciprocalUnique(pairs, i, margin);
    assert On(pairs[i], OfHistory, h);
  }

  // ---------------------------------------------------------------- matches and measurements

  ghost predicate PlausibleAt(d: FrameData, c: Config, g: nat, h: nat)
    requires FrameOk(d, c)
  {
    g < |d.groups| && h < |d.provenance| && Usable(d.groups[g]) && Plausible(d.relations[g][h], d.groups[g].continuityOnly, c)
  }

  /** The pair is plausible, and no other pair of the group or of the history is. */
  ghost predicate OnlyPlausible(d: FrameData, c: Config, g: nat, h: nat)
    requires FrameOk(d, c)
  {
    && PlausibleAt(d, c, g, h)
    && (forall other: nat :: PlausibleAt(d, c, g, other) ==> other == h)
    && (forall other: nat :: PlausibleAt(d, c, other, h) ==> other == g)
  }

  /** What a match of group g says about the measurements. */
  ghost predicate Measured(d: FrameData, c: Config, g: nat, o: Outcome)
    requires FrameOk(d, c)
  {
    && g < |d.groups| && 0 <= o.matched < |d.provenance|
    && if o.lineage then Rescuable(d.relations[g][o.matched], d.groups[g].continuityOnly, c) else PlausibleAt(d, c, g, o.matched)
  }

  /** Pair i of the table joins group g and history h. */
  lemma TablePair(d: FrameData, c: Config, pairs: seq<Pair>, i: nat)
    requires FrameOk(d, c) && WholeTable(d.groups, d.relations, |d.provenance|, c, pairs) && i < |pairs|
    ensures pairs[i].group < |d.groups| && pairs[i].history < |d.provenance|
    ensures pairs[i].feasible <==> PlausibleAt(d, c, pairs[i].group, pairs[i].history)
    ensures var r, k := d.relations[pairs[i].group][pairs[i].history], d.groups[pairs[i].group].continuityOnly;
            pairs[i].reject in {XyGate, ExtentGate} && LineageVertical(r, k, c) <==> Rescuable(r, k, c)
  {
    var p := pairs[i];
    assert Entry(d.groups, d.relations, |d.provenance|, c, |d.groups|, 0, p);
    GatesExactly(p.group, p.history, d.groups[p.group].continuityOnly, d.relations[p.group][p.history], c);
  }

  lemma MatchIsMeasured(d: FrameData, c: Config, pairs: seq<Pair>, ph: Phases, verticalHolds: (nat, nat) -> bool, g: nat)
    requires FrameOk(d, c) && WholeTable(d.groups, d.relations, |d.provenance|, c, pairs) && g < |d.groups|
    requires PhasesOk(d.groups, pairs, |d.provenance|, c.ambiguityCostMargin, ph)
    requires forall p :: p in ph.proposals ==> ProposedBy(d, c, pairs, ph.exact, ph.exactAmbiguous, |d.observations|, p)
    requires Decide(d.groups, ph, verticalHolds, g).matched >= 0
    ensures Measured(d, c, g, Decide(d.groups, ph, verticalHolds, g))
  {
    var o := Decide(d.groups, ph, verticalHolds, g);
    if o.lineage {
      var p := ph.proposals[ph.selected[g]];
      assert p in ph.proposals;
      assert RejectedPair(pairs, g, o.matched);
      var i :| 0 <= i < |pairs| && pairs[i].group == g && pairs[i].history == o.matched && pairs[i].reject in {XyGate, ExtentGate};
      TablePair(d, c, pairs, i);
    } else {
      ExactIsReciprocal(pairs, g, c.ambiguityCostMargin);
      var i :| 0 <= i < |pairs| && pairs[i].group == g && pairs[i].history == o.matched && ReciprocalUnique(pairs, i, c.ambiguityCostMargin);
      TablePair(d, c, pairs, i);
    }
  }

  /** A pair that is alone on both sides is matched for any margin. */
  lemma AloneIsMatched(pairs: seq<Pair>, i: nat, margin: real)
    requires margin >= 0.0 && i < |pairs| && pairs[i].feasible
    requires forall j :: 0 <= j < |pairs| && On(pairs[j], OfGroup, pairs[i].group) ==> j == i
    requires forall j :: 0 <= j < |pairs| && On(pairs[j], OfHistory, pairs[i].history) ==> j == i
    ensures ExactMatch(pairs, pairs[i].group, margin) == pairs[i].history
  {
    var g, h := pairs[i].group, pairs[i].history;
    assert On(pairs[i], OfGroup, g) && On(pairs[i], OfHistory, h);
    BestIsCheapest(pairs, OfGroup, g);
    BestIsCheapest(pairs, OfHistory, h);
    BestUndisputed(pairs, OfGroup, g, margin);
    BestUndisputed(pairs, OfHistory, h, margin);
    assert Undisputed(pairs, OfGroup, g, i, margin) && Undisputed(pairs, OfHistory, h, i, margin);
  }

  lemma OnlyPlausibleIsMatched(d: FrameData, c: Config, pairs: seq<Pair>, ph: Phases, verticalHolds: (nat, nat) -> bool, g: nat, h: nat)
    requires FrameOk(d, c) && WholeTable(d.groups, d.relations, |d.provenance|, c, pairs)
    requires PhasesOk(d.groups, pairs, |d.provenance|, c.ambiguityCostMargin, ph) && OnlyPlausible(d, c, g, h)
    ensures Decide(d.groups, ph, verticalHolds, g) ==
              Outcome(if d.groups[g].continuityOnly && !verticalHolds(g, h) then -1 else h, false, false)
  {
    var p := EvaluateAt(d.groups, d.relations, |d.provenance|, c, g, h);
    assert p in pairs;
    var i :| 0 <= i < |pairs| && pairs[i] == p;
    TablePair(d, c, pairs, i);
    forall j | 0 <= j < |pairs| && (On(pairs[j], OfGroup, g) || On(pairs[j], OfHistory, h)) ensures j == i {
      TablePair(d, c, pairs, j);
      assert PlausibleAt(d, c, pairs[j].group, pairs[j].history);
    }
    AloneIsMatched(pairs, i, c.ambiguityCostMargin);
    UnmatchedWhenProposed(d.groups, pairs, |d.provenance|, c.ambiguityCostMargin, ph, g);
  }

  /**
   No history is matched by two groups. An exact match beats every rival by more than the margin; a
   lineage match takes only a history no current group could match exactly; a group with
   continuity-only vertical evidence stays matched only if the vertical gate holds. With a margin of
   at least EPSILON a reciprocal-unique pair is lost only to that gate. Every outcome is the decision
   on the phases, and the proposals are exactly those the lineage observations make. An exact match is
   plausible by its measurements, a lineage match is not but is recent and steady in height where that
   counts, and a usable pair that is the only plausible one at both ends is matched.
   */
  method AssociateFrame(d: FrameData, verticalHolds: (nat, nat) -> bool, c: Config)
    returns (pairs: seq<Pair>, phases: Phases, outcomes: seq<Outcome>, ghost from: seq<nat>)
    requires FrameOk(d, c)
    ensures WholeTable(d.groups, d.relations, |d.provenance|, c, pairs) && |outcomes| == |d.groups|
    ensures PhasesOk(d.groups, pairs, |d.provenance|, c.ambiguityCostMargin, phases)
    ensures Listed(d, c, pairs, phases.exact, phases.exactAmbiguous, |d.observations|, phases.proposals, from)
    ensures forall p :: p in phases.proposals <==> ProposedBy(d, c, pairs, phases.exact, phases.exactAmbiguous, |d.observations|, p)
    ensures forall g :: 0 <= g < |d.groups| ==> outcomes[g] == Decide(d.groups, phases, verticalHolds, g)
    ensures forall g, g' :: 0 <= g < g' < |d.groups| && outcomes[g].matched >= 0 ==> outcomes[g].matched != outcomes[g'].matched
    ensures forall g :: 0 <= g < |d.groups| && outcomes[g].matched >= 0 ==>
              && MatchGrounds(d.groups[g], pairs, g, outcomes[g], c.ambiguityCostMargin)
              && (d.groups[g].continuityOnly ==> verticalHolds(g, outcomes[g].matched))
    ensures c.ambiguityCostMargin >= EPSILON ==>
              forall g: nat, h: nat :: g < |d.groups| && ExactPair(pairs, g, h, c.ambiguityCostMargin) ==>
                outcomes[g].matched == if d.groups[g].continuityOnly && !verticalHolds(g, h) then -1 else h
    ensures forall g: nat :: g < |d.groups| && outcomes[g].matched >= 0 ==> Measured(d, c, g, outcomes[g])
    ensures forall g: nat, h: nat :: OnlyPlausible(d, c, g, h) ==>
              outcomes[g] == Outcome(if d.groups[g].continuityOnly && !verticalHolds(g, h) then -1 else h, false, false)
  {
    pairs := BuildPairs(d.groups, d.relations, |d.provenance|, c);
    phases, from := RunPhases(d, c, pairs);
    outcomes := [];
    for g := 0 to |d.groups|
      invariant |outcomes| == g
      invariant forall q :: 0 <= q < g ==> outcomes[q] == Decide(d.groups, phases, verticalHolds, q)
    {
      outcomes := outcomes + [Decide(d.groups, phases, verticalHolds, g)];
    }
    forall i | 0 <= i < |pairs| ensures !d.groups[pairs[i].group].ambiguous && d.groups[pairs[i].group].finite {
      assert Entry(d.groups, d.relations, |d.provenance|, c, |d.groups|, 0, pairs[i]);
    }
    FrameCorrect(d.groups, pairs, |d.provenance|, c.ambiguityCostMargin, phases, verticalHolds, outcomes);
    forall g: nat | g < |d.groups| && outcomes[g].matched >= 0 ensures Measured(d, c, g, outcomes[g]) {
      MatchIsMeasured(d, c, pairs, phases, verticalHolds, g);
    }
    forall g: nat, h: nat | OnlyPlausible(d, c, g, h)
      ensures outcomes[g] == Outcome(if d.groups[g].continuityOnly && !verticalHolds(g, h) then -1 else h, false, false)
    {
      OnlyPlausibleIsMatched(d, c, pairs, phases, verticalHolds, g, h);
    }
  }

  method RunPhases(d: FrameData, c: Config, pairs: seq<Pair>) returns (ph: Phases, ghost from: seq<nat>)
    requires FrameOk(d, c) && PairTable(pairs, |d.groups|, |d.provenance|)
    ensures PhasesOk(d.groups, pairs, |d.provenance|, c.ambiguityCostMargin, ph)
    ensures Listed(d, c, pairs, ph.exact, ph.exactAmbiguous, |d.observations|, ph.proposals, from)
    ensures forall p :: p in ph.proposals <==> ProposedBy(d, c, pairs, ph.exact, ph.exactAmbiguous, |d.observations|, p)
  {
    var exact, exactAmbiguous := ExactPhase(d.groups, pairs, |d.provenance|, c.ambiguityCostMargin);
    var proposals;
    proposals, from := Propose(d, c, pairs, exact, exactAmbiguous);
    forall k | 0 <= k < |proposals| ensures Admissible(d.groups, pairs, exact, exactAmbiguous, |d.provenance|, proposals[k]) {
      assert proposals[k] in proposals;
    }
    var selected, conflict := SelectPhase(proposals, |d.groups|);
    var contested := ContestedFlags(proposals, selected);
    ph := Phases(exact, exactAmbiguous, proposals, selected, conflict, contested);
  }

  lemma FrameCorrect(groups: seq<GroupInput>, pairs: seq<Pair>, histories: nat, margin: real, ph: Phases,
                     verticalHolds: (nat, nat) -> bool, outcomes: seq<Outcome>)
    requires PhasesOk(groups, pairs, histories, margin, ph) && PairTable(pairs, |groups|, histories) && margin >= 0.0
    requires forall i :: 0 <= i < |pairs| ==> !groups[pairs[i].group].ambiguous && groups[pairs[i].group].finite
    requires |outcomes| == |groups| && forall g :: 0 <= g < |groups| ==> outcomes[g] == Decide(groups, ph, verticalHolds, g)
    ensures forall g, g' :: 0 <= g < g' < |groups| && outcomes[g].matched >= 0 ==> outcomes[g].matched != outcomes[g'].matched
    ensures forall g :: 0 <= g < |groups| && outcomes[g].matched >= 0 ==>
              && MatchGrounds(groups[g], pairs, g, outcomes[g], margin)
              && (groups[g].continuityOnly ==> verticalHolds(g, outcomes[g].matched))
    ensures margin >= EPSILON ==> forall g: nat, h: nat :: g < |groups| && ExactPair(pairs, g, h, margin) ==>
              outcomes[g].matched == if groups[g].continuityOnly && !verticalHolds(g, h) then -1 else h
  {
    forall g | 0 <= g < |groups| && outcomes[g].matched >= 0
      ensures MatchGrounds(groups[g], pairs, g, outcomes[g], margin)
      ensures groups[g].continuityOnly ==> verticalHolds(g, outcomes[g].matched)
    {
      Grounds(groups, pairs, histories, margin, ph, verticalHolds, g);
    }
    forall g, g' | 0 <= g < g' < |groups| && outcomes[g].matched >= 0
      ensures outcomes[g].matched != outcomes[g'].matched
    {
      DifferentHistories(groups, pairs, histories, margin, ph, verticalHolds, g, g');
    }
    forall g: nat, h: nat | margin >= EPSILON && g < |groups| && ExactPair(pairs, g, h, margin)
      ensures outcomes[g].matched == if groups[g].continuityOnly && !verticalHolds(g, h) then -1 else h
    {
      ReciprocalIsMatched(pairs, g, h, margin);
      UnmatchedWhenProposed(groups, pairs, histories, margin, ph, g);
    }
  }

  method ExactPhase(groups: seq<GroupInput>, pairs: seq<Pair>, histories: nat, margin: real)
    returns (exact: seq<int>, ambiguous: seq<bool>)
    requires PairTable(pairs, |groups|, histories) && margin >= 0.0
    ensures |exact| == |ambiguous| == |groups|
    ensures forall g :: 0 <= g < |groups| ==>
              exact[g] == ExactMatch(pairs, g, margin) && (ambiguous[g] <==> exact[g] == -1 && HasFeasible(pairs, OfGroup, g))
  {
    exact, ambiguous := [], [];
    for g := 0 to |groups|
      invariant |exact| == |ambiguous| == g
      invariant forall q :: 0 <= q < g ==>
                  exact[q] == ExactMatch(pairs, q, margin) && (ambiguous[q] <==> exact[q] == -1 && HasFeasible(pairs, OfGroup, q))
    {
      var m, a := AssociateGroup(pairs, g, margin);
      exact, ambiguous := exact + [m], ambiguous + [a];
    }
  }

  method SelectPhase(proposals: seq<Proposal>, n: nat) returns (selected: seq<int>, conflict: seq<bool>)
    ensures |selected| == |conflict| == n
    ensures forall g :: 0 <= g < n ==>
              && -1 <= selected[g] < |proposals|
              && (selected[g] == -1 <==> NoProposal(proposals, g))
              && (selected[g] == -1 ==> !conflict[g])
              && (selected[g] >= 0 ==> Newest(proposals, g, selected[g]))
              && (selected[g] >= 0 ==> (!conflict[g] <==> Settled(proposals, g, selected[g])))
  {
    selected, conflict := [], [];
    for g := 0 to n
      invariant |selected| == |conflict| == g
      invariant forall q :: 0 <= q < g ==>
                  && -1 <= selected[q] < |proposals|
                  && (selected[q] == -1 <==> NoProposal(proposals, q))
                  && (selected[q] == -1 ==> !conflict[q])
                  && (selected[q] >= 0 ==> Newest(proposals, q, selected[q]))
                  && (selected[q] >= 0 ==> (!conflict[q] <==> Settled(proposals, q, selected[q])))
    {
      var k, x := SelectNewest(proposals, g);
      selected, conflict := selected + [k], conflict + [x];
    }
  }
}
