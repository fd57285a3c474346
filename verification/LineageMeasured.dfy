/**
 What a reported component correspondence says about the two measured frames: how far the component moved,
 how its size changed, what the crane did meanwhile, and by how many metres no other component competes.
 */
module LineageMeasured {
  import opened ComponentLineage
  import opened Prelude

  // ---------------------------------------------------------------- measured on the components

  function Distance(c: Config, p: Component, q: Component): real { c.norm(q.centre.x - p.centre.x, q.centre.y - p.centre.y) }

  /** Where the component lies on the ground by the pose of its frame. */
  function OnGround(f: Frame, k: Component): Vec {
    Vec(f.pose.m03 + f.pose.m00 * k.centre.x + f.pose.m01 * k.centre.y, f.pose.m13 + f.pose.m10 * k.centre.x + f.pose.m11 * k.centre.y)
  }

  function GroundDistance(c: Config, past: Frame, now: Frame, p: Component, q: Component): real {
    c.norm(OnGround(now, q).x - OnGround(past, p).x, OnGround(now, q).y - OnGround(past, p).y)
  }

  lemma PlacedOnGround(f: Frame, k: Component)
    ensures OnGround(f, k) == MapCentre(k, f.pose)
  {}

  predicate CraneMoved(c: Config, past: Frame, now: Frame) {
    c.norm(now.pose.m03 - past.pose.m03, now.pose.m13 - past.pose.m13) > c.maxStep + EPSILON
  }

  /** The two lengths differ by at most the configured share of the larger one. */
  predicate SimilarLength(c: Config, x: real, y: real) {
    Abs(x - y) <= (c.maxSizeStep + EPSILON) * Max(Max(Abs(x), Abs(y)), EPSILON)
  }

  /**
   Near and of similar size, and carried: while the crane moved it did not stand still over ground; while the
   crane stood, the hook was validly loaded.
   */
  predicate Carried(c: Config, past: Frame, now: Frame, p: Component, q: Component) {
    && Distance(c, p, q) <= c.maxStep + EPSILON
    && SimilarLength(c, p.extent.x, q.extent.x) && SimilarLength(c, p.extent.y, q.extent.y)
    && if CraneMoved(c, past, now) then GroundDistance(c, past, now, p, q) > c.maxStep + EPSILON
       else now.gravityValid && now.gravity == GravityLoaded
  }

  lemma ShareOf(x: real, y: real, z: real)
    requires y > 0.0
    ensures x / y <= z <==> x <= z * y
  {
    assert x == (x / y) * y;
    if x / y <= z {
      assert (x / y) * y <= z * y;
    } else {
      assert (x / y) * y > z * y;
    }
  }

  lemma AxisExactly(c: Config, x: real, y: real)
    ensures AxisStep(x, y) <= c.maxSizeStep + EPSILON <==> SimilarLength(c, x, y)
  {
    ShareOf(Abs(x - y), Max(Max(Abs(x), Abs(y)), EPSILON), c.maxSizeStep + EPSILON);
  }

  /** The gates of a pair are what is measured on its two components. */
  lemma GatesExactly(c: Config, past: Frame, now: Frame, i: nat, j: nat)
    requires UsableConfig(c) && i < |past.components| && j < |now.components|
    ensures Eligible(MotionOf(c, past, now), PairOf(c, past, now, i, j)) <==>
              Carried(c, past, now, past.components[i], now.components[j])
  {
    var p, q := past.components[i], now.components[j];
    PlacedOnGround(past, p);
    PlacedOnGround(now, q);
    AxisExactly(c, p.extent.x, q.extent.x);
    AxisExactly(c, p.extent.y, q.extent.y);
    assert ExtentStep(p, q) <= c.maxSizeStep + EPSILON <==> SimilarLength(c, p.extent.x, q.extent.x) && SimilarLength(c, p.extent.y, q.extent.y);
  }

  /** The required lead in metres. */
  function Lead(c: Config): real { (c.margin + EPSILON) * c.maxStep }

  lemma LeadInMetres(x: real, y: real, margin: real, unit: real)
    requires unit > 0.0
    ensures x / unit > y / unit + margin <==> x > y + margin * unit
  {
    assert x == (x / unit) * unit && y == (y / unit) * unit;
    if x / unit > y / unit + margin {
      assert (x / unit) * unit > (y / unit + margin) * unit;
    } else {
      assert (x / unit) * unit <= (y / unit + margin) * unit;
    }
    assert (y / unit + margin) * unit == (y / unit) * unit + margin * unit;
  }

  /** Every other carried component at the end (i of the past or j of now) is farther by more than the lead. */
  ghost predicate Foremost(c: Config, past: Frame, now: Frame, i: nat, j: nat, side: Side)
    requires i < |past.components| && j < |now.components|
  {
    forall a: nat, b: nat ::
      (a < |past.components| && b < |now.components| && (a, b) != (i, j) && (if side == OfCurrent then b == j else a == i)
       && Carried(c, past, now, past.components[a], now.components[b])) ==>
        Distance(c, past.components[a], now.components[b]) > Distance(c, past.components[i], now.components[j]) + Lead(c)
  }

  // ---------------------------------------------------------------- where a pair of components stands

  lemma {:induction false} TableHas(c: Config, past: Frame, now: Frame, i: nat, j: nat, a: nat, b: nat) returns (k: nat)
    requires UsableConfig(c) && i <= |past.components| && j <= |now.components| && (i == |past.components| ==> j == 0)
    requires b < |now.components| && (a < i || (a == i && b < j))
    ensures k < |Table(c, past, now, i, j)| && Table(c, past, now, i, j)[k] == PairOf(c, past, now, a, b)
    decreases i, j
  {
    if j > 0 && a == i && b == j - 1 {
      k := |Table(c, past, now, i, j - 1)|;
    } else if j > 0 {
      k := TableHas(c, past, now, i, j - 1, a, b);
    } else {
      k := TableHas(c, past, now, i - 1, |now.components|, a, b);
    }
  }

  lemma PlaceOf(c: Config, past: Frame, now: Frame, a: nat, b: nat) returns (k: nat)
    requires UsableConfig(c) && a < |past.components| && b < |now.components|
    ensures k < |Pairs(c, past, now)| && Pairs(c, past, now)[k] == PairOf(c, past, now, a, b)
  {
    k := TableHas(c, past, now, |past.components|, 0, a, b);
  }

  function KeyOf(p: Pair, side: Side): nat { if side == OfCurrent then p.current else p.previous }

  /** The costs of two pairs of the table are their distances in units of the largest step. */
  lemma CostsCompare(c: Config, past: Frame, now: Frame, k: nat, x: nat)
    requires UsableConfig(c) && k < |Pairs(c, past, now)| && x < |Pairs(c, past, now)|
    ensures var pairs := Pairs(c, past, now); var p, q := pairs[k], pairs[x];
            && p.previous < |past.components| && p.current < |now.components| && q.previous < |past.components| && q.current < |now.components|
            && (q.cost > Bound(c, pairs, k) <==>
                  Distance(c, past.components[q.previous], now.components[q.current])
                  > Distance(c, past.components[p.previous], now.components[p.current]) + Lead(c))
            && (Eligible(MotionOf(c, past, now), q) <==> Carried(c, past, now, past.components[q.previous], now.components[q.current]))
  {
    PairsIndexed(c, past, now);
    var p, q := Pairs(c, past, now)[k], Pairs(c, past, now)[x];
    LeadInMetres(Distance(c, past.components[q.previous], now.components[q.current]),
                 Distance(c, past.components[p.previous], now.components[p.current]), c.margin + EPSILON, c.maxStep);
    GatesExactly(c, past, now, q.previous, q.current);
  }

  lemma TwoPlaces(c: Config, past: Frame, now: Frame, k: nat, x: nat)
    requires UsableConfig(c) && k < |Pairs(c, past, now)| && x < |Pairs(c, past, now)|
    requires Pairs(c, past, now)[k].previous == Pairs(c, past, now)[x].previous && Pairs(c, past, now)[k].current == Pairs(c, past, now)[x].current
    ensures k == x
  {
    PairsIndexed(c, past, now);
    assert Distinct(Pairs(c, past, now));
  }

  lemma UndisputedIsForemost(c: Config, past: Frame, now: Frame, side: Side, k: nat)
    requires UsableConfig(c) && k < |Pairs(c, past, now)|
    requires Undisputed(c, MotionOf(c, past, now), Pairs(c, past, now), side, KeyOf(Pairs(c, past, now)[k], side), k)
    ensures var p := Pairs(c, past, now)[k];
            && p.previous < |past.components| && p.current < |now.components|
            && Carried(c, past, now, past.components[p.previous], now.components[p.current])
            && Foremost(c, past, now, p.previous, p.current, side)
  {
    var pairs := Pairs(c, past, now);
    var p := pairs[k];
    CostsCompare(c, past, now, k, k);
    forall a: nat, b: nat | a < |past.components| && b < |now.components| && (a, b) != (p.previous, p.current)
                            && (if side == OfCurrent then b == p.current else a == p.previous)
                            && Carried(c, past, now, past.components[a], now.components[b])
      ensures Distance(c, past.components[a], now.components[b]) > Distance(c, past.components[p.previous], now.components[p.current]) + Lead(c)
    {
      var x := PlaceOf(c, past, now, a, b);
      CostsCompare(c, past, now, k, x);
      assert On(MotionOf(c, past, now), pairs[x], side, KeyOf(p, side));
    }
  }

  lemma ForemostIsUndisputed(c: Config, past: Frame, now: Frame, side: Side, k: nat)
    requires UsableConfig(c) && k < |Pairs(c, past, now)|
    requires var p := Pairs(c, past, now)[k];
             && p.previous < |past.components| && p.current < |now.components|
             && Carried(c, past, now, past.components[p.previous], now.components[p.current])
             && Foremost(c, past, now, p.previous, p.current, side)
    ensures Undisputed(c, MotionOf(c, past, now), Pairs(c, past, now), side, KeyOf(Pairs(c, past, now)[k], side), k)
  {
    var pairs, m := Pairs(c, past, now), MotionOf(c, past, now);
    CostsCompare(c, past, now, k, k);
    forall x: nat | x < |pairs| && x != k && On(m, pairs[x], side, KeyOf(pairs[k], side)) ensures pairs[x].cost > Bound(c, pairs, k) {
      CostsCompare(c, past, now, k, x);
      if pairs[x].previous == pairs[k].previous && pairs[x].current == pairs[k].current {
        TwoPlaces(c, past, now, k, x);
      }
    }
  }

  // ---------------------------------------------------------------- on every run

  /** What a report says of the two frames. */
  ghost predicate Measured(c: Config, past: Frame, now: Frame, x: Match) {
    && 0.0 < now.stamp - past.stamp <= c.maxGap && x.previousStamp == past.stamp
    && x.pair.previous < |past.components| && x.pair.current < |now.components|
    && x.previousId == past.components[x.pair.previous].id && x.currentId == now.components[x.pair.current].id
    && Carried(c, past, now, past.components[x.pair.previous], now.components[x.pair.current])
    && Foremost(c, past, now, x.pair.previous, x.pair.current, OfCurrent)
    && Foremost(c, past, now, x.pair.previous, x.pair.current, OfPrevious)
  }

  lemma JustifiedIsMeasured(c: Config, recent: seq<Frame>, now: Frame, x: Match)
    requires UsableConfig(c) && Justified(c, recent, now, x)
    ensures Measured(c, recent[|recent| - x.offset], now, x)
  {
    var past := recent[|recent| - x.offset];
    var pairs, m := Pairs(c, past, now), MotionOf(c, past, now);
    var k: nat :| k < |pairs| && pairs[k] == x.pair
                  && Undisputed(c, m, pairs, OfCurrent, x.pair.current, k) && Undisputed(c, m, pairs, OfPrevious, x.pair.previous, k);
    UndisputedIsForemost(c, past, now, OfCurrent, k);
    UndisputedIsForemost(c, past, now, OfPrevious, k);
  }

  lemma ReportedIsMeasured(c: Config, recent: seq<Frame>, now: Frame, matches: seq<Match>, n: nat)
    requires UsableConfig(c) && Reported(c, recent, now, |recent|, matches) && n < |matches|
    ensures 1 <= matches[n].offset <= |recent| && Measured(c, recent[|recent| - matches[n].offset], now, matches[n])
  {
    assert Justified(c, recent, now, matches[n]);
    JustifiedIsMeasured(c, recent, now, matches[n]);
  }

  /** After every run each reported match joins two carried components, foremost at both ends by the lead. */
  lemma {:induction false} RunMeasures(c: Config, run: seq<Frame>, f: Frame, recent: seq<Frame>, now: Frame, matches: seq<Match>, n: nat)
    requires UsableConfig(c) && recent == After(c, run) && now == f.(components := Kept(f.components, f.stamp))
    requires matches == Step(c, recent, f).1 && n < |matches|
    ensures 1 <= matches[n].offset <= |recent| && Measured(c, recent[|recent| - matches[n].offset], now, matches[n])
  {
    assert Reported(c, recent, now, |recent|, matches) by {
      RunReports(c, run, f);
    }
    ReportedIsMeasured(c, recent, now, matches, n);
  }

  // ---------------------------------------------------------------- the converse

  /** Component i of the past is the only one that component j of now can have been. */
  ghost predicate Only(c: Config, past: Frame, now: Frame, i: nat, j: nat)
    requires i < |past.components| && j < |now.components|
  {
    && Carried(c, past, now, past.components[i], now.components[j])
    && (forall a: nat :: a < |past.components| && a != i ==> !Carried(c, past, now, past.components[a], now.components[j]))
  }

  lemma OthersAreNotLive(c: Config, past: Frame, now: Frame, i: nat, j: nat, k: nat, x: nat)
    requires UsableConfig(c) && i < |past.components| && j < |now.components|
    requires k < |Pairs(c, past, now)| && Pairs(c, past, now)[k] == PairOf(c, past, now, i, j)
    requires x < |Pairs(c, past, now)| && x != k && Pairs(c, past, now)[x].current == j
    requires Only(c, past, now, i, j)
    ensures !Live(MotionOf(c, past, now), Pairs(c, past, now)[x])
  {
    CostsCompare(c, past, now, k, k);
    CostsCompare(c, past, now, k, x);
    if Pairs(c, past, now)[x].previous == i {
      TwoPlaces(c, past, now, k, x);
    }
  }

  lemma NothingContests(c: Config, past: Frame, now: Frame, i: nat, j: nat, k: nat)
    requires UsableConfig(c) && i < |past.components| && j < |now.components|
    requires k < |Pairs(c, past, now)| && Pairs(c, past, now)[k] == PairOf(c, past, now, i, j)
    requires Only(c, past, now, i, j)
    requires forall b: nat :: b < |now.components| && b != j ==> now.components[b].id != now.components[j].id
    ensures !ContestedBefore(c, MotionOf(c, past, now), Pairs(c, past, now), Ids(now), k, Ids(now)[j])
  {
    var pairs, ids := Pairs(c, past, now), Ids(now);
    forall x: nat | x < k && pairs[x].current < |ids| && ids[pairs[x].current] == ids[j]
      ensures !Contested(c, MotionOf(c, past, now), pairs, pairs[x])
    {
      OthersAreNotLive(c, past, now, i, j, k, x);
    }
  }

  lemma {:induction false} OnlyIsMatched(c: Config, past: Frame, now: Frame, i: nat, j: nat, k: nat)
    requires UsableConfig(c) && i < |past.components| && j < |now.components|
    requires k < |Pairs(c, past, now)| && Pairs(c, past, now)[k] == PairOf(c, past, now, i, j)
    requires Only(c, past, now, i, j) && Foremost(c, past, now, i, j, OfPrevious)
    requires forall b: nat :: b < |now.components| && b != j ==> now.components[b].id != now.components[j].id
    ensures Indexed(Pairs(c, past, now), Ids(now))
    ensures k in Judged(c, MotionOf(c, past, now), Pairs(c, past, now), Ids(now), [], |Pairs(c, past, now)|).matched
  {
    NothingContests(c, past, now, i, j, k);
    PairsIndexed(c, past, now);
    ForemostIsUndisputed(c, past, now, OfCurrent, k);
    ForemostIsUndisputed(c, past, now, OfPrevious, k);
    LoneIsMatched(c, MotionOf(c, past, now), Pairs(c, past, now), Ids(now), k);
  }

  lemma {:induction false} LoneIsMatched(c: Config, m: Motion, pairs: seq<Pair>, ids: seq<nat>, k: nat)
    requires c.margin >= 0.0 && Indexed(pairs, ids) && k < |pairs|
    requires Undisputed(c, m, pairs, OfCurrent, pairs[k].current, k) && Undisputed(c, m, pairs, OfPrevious, pairs[k].previous, k)
    requires forall b: nat :: b < |ids| && b != pairs[k].current ==> ids[b] != ids[pairs[k].current]
    requires !ContestedBefore(c, m, pairs, ids, k, ids[pairs[k].current])
    ensures k in Judged(c, m, pairs, ids, [], |pairs|).matched
  {
    UndisputedIsMatched(c, m, pairs, ids, [], k);
    UndisputedIsBest(c, m, pairs, OfCurrent, pairs[k].current, k);
  }

  lemma {:induction false} LaterFramesKeep(c: Config, recent: seq<Frame>, now: Frame, n: nat, x: Match)
    requires UsableConfig(c) && 1 <= n <= |recent| && x in AfterFrames(c, recent, now, 1).matches
    ensures x in AfterFrames(c, recent, now, n).matches
  {
    if n > 1 {
      LaterFramesKeep(c, recent, now, n - 1, x);
    }
  }

  /**
   After every run: when the update continues the newest retained frame, a component of its own id is reported
   against the only component of that frame it can have been, provided no other comes near that one.
   */
  lemma {:induction false} OnlyIsReported(c: Config, run: seq<Frame>, f: Frame, recent: seq<Frame>, now: Frame, i: nat, j: nat)
    requires UsableConfig(c) && recent == After(c, run) && now == f.(components := Kept(f.components, f.stamp))
    requires f.usable && |recent| > 0
    requires var past := recent[|recent| - 1];
             && Follows(c, past, now)
             && i < |past.components| && j < |now.components|
             && Only(c, past, now, i, j) && Foremost(c, past, now, i, j, OfPrevious)
             && (forall b: nat :: b < |now.components| && b != j ==> now.components[b].id != now.components[j].id)
    ensures var past := recent[|recent| - 1];
            exists x :: x in Step(c, recent, f).1 && x.offset == 1 && x.pair.previous == i && x.pair.current == j
                        && x.previousId == past.components[i].id && x.currentId == now.components[j].id
  {
    var past := recent[|recent| - 1];
    var k := PlaceOf(c, past, now, i, j);
    OnlyIsMatched(c, past, now, i, j, k);
    var ks := ScanOf(c, past, now, []).matched;
    var x := MatchOf(past, now, 1, PairOf(c, past, now, i, j));
    JudgedSound(c, MotionOf(c, past, now), Pairs(c, past, now), Ids(now), [], |Pairs(c, past, now)|);
    var at: nat :| at < |ks| && ks[at] == k;
    assert Report(c, past, now, 1, ks)[at] == x;
    assert AfterFrames(c, recent, now, 0) == Progress([], []);
    assert AfterFrames(c, recent, now, 1) == AtFrame(c, past, now, 1, Progress([], []));
    LaterFramesKeep(c, recent, now, |recent|, x);
  }
}
