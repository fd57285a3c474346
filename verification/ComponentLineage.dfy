/**
 The bounded cache of recent component frames and the reciprocal, margin-guarded correspondences it
 reports between the current frame and each retained one, newest first.
 */
module ComponentLineage {
  import opened Positions
  import opened Prelude

  const EPSILON: real := 0.000000001
  const MAXIMUM_RECENT_FRAMES: nat := 3

  datatype Vec = Vec(x: real, y: real)

  /** finite covers the descriptor's coordinates and extents. */
  datatype Component = Component(id: nat, seedGroup: nat, stamp: real, centre: Vec, extent: Vec, finite: bool)

  /** The planar rows of the map-from-base pose. */
  datatype Pose = Pose(m00: real, m01: real, m03: real, m10: real, m11: real, m13: real)

  datatype Gravity = GravityUnknown | GravityEmpty | GravityLoaded

  /** usable: finite stamp and pose, a nonzero lifecycle, and a valid identity whose stamp agrees. */
  datatype Frame = Frame(
    usable: bool,
    stamp: real,
    lifecycle: nat,
    index: nat,
    epoch: nat,
    authority: nat,
    pose: Pose,
    gravityValid: bool,
    gravity: Gravity,
    components: seq<Component>)

  /** norm is the Euclidean length. */
  datatype Config = Config(maxStep: real, maxSizeStep: real, maxGap: real, margin: real, norm: (real, real) -> real)

  datatype Motion = UnknownFailClosed | IdleZeroLoad | LoadPresentUnobservable | EgoMotionObservable

  datatype Pair = Pair(previous: nat, current: nat, cost: real, near: bool, still: bool, sameSize: bool)

  /** offset counts retained frames back from the newest, starting at one. */
  datatype Match = Match(offset: nat, previousStamp: real, previousId: nat, currentId: nat, pair: Pair)

  predicate UsableConfig(c: Config) {
    c.maxStep > 0.0 && c.maxSizeStep >= 0.0 && c.maxGap > 0.0 && c.margin >= 0.0
  }

  /** The configuration the setter keeps. */
  function Sanitized(c: Config): Config {
    c.(maxStep := if c.maxStep > 0.0 then c.maxStep else 0.30,
       maxSizeStep := if c.maxSizeStep >= 0.0 then c.maxSizeStep else 0.60,
       maxGap := if c.maxGap > 0.0 then c.maxGap else 0.50,
       margin := if c.margin >= 0.0 then c.margin else 0.08)
  }

  // ---------------------------------------------------------------- admission

  predicate KeepComponent(k: Component, stamp: real) {
    k.stamp > 0.0 && Abs(k.stamp - stamp) <= EPSILON && k.finite && k.seedGroup != 0
  }

  function Kept(components: seq<Component>, stamp: real): seq<Component> {
    if |components| == 0 then []
    else
      var rest, last := Kept(components[..|components| - 1], stamp), components[|components| - 1];
      if KeepComponent(last, stamp) then rest + [last] else rest
  }

  /** The current frame continues the retained ones. */
  predicate Follows(c: Config, newest: Frame, f: Frame) {
    && 0.0 < f.stamp - newest.stamp <= c.maxGap
    && f.index > newest.index
    && f.epoch == newest.epoch && f.authority == newest.authority && f.lifecycle == newest.lifecycle
  }

  // ---------------------------------------------------------------- pairs of one retained frame

  function EgoStep(c: Config, p: Pose, q: Pose): real { c.norm(q.m03 - p.m03, q.m13 - p.m13) }

  function Observability(c: Config, egoStep: real, f: Frame): Motion {
    if egoStep > c.maxStep + EPSILON then EgoMotionObservable
    else if !f.gravityValid then UnknownFailClosed
    else match f.gravity
      case GravityLoaded => LoadPresentUnobservable
      case GravityEmpty => IdleZeroLoad
      case GravityUnknown => UnknownFailClosed
  }

  function MapCentre(k: Component, p: Pose): Vec {
    Vec(p.m00 * k.centre.x + p.m01 * k.centre.y + p.m03, p.m10 * k.centre.x + p.m11 * k.centre.y + p.m13)
  }

  function AxisStep(x: real, y: real): real {
    Abs(x - y) / Max(Max(Abs(x), Abs(y)), EPSILON)
  }

  function ExtentStep(p: Component, q: Component): real {
    Max(AxisStep(p.extent.x, q.extent.x), AxisStep(p.extent.y, q.extent.y))
  }

  function PairOf(c: Config, past: Frame, now: Frame, i: nat, j: nat): Pair
    requires UsableConfig(c) && i < |past.components| && j < |now.components|
  {
    var p, q := past.components[i], now.components[j];
    var step := c.norm(q.centre.x - p.centre.x, q.centre.y - p.centre.y);
    var mp, mq := MapCentre(p, past.pose), MapCentre(q, now.pose);
    Pair(i, j, step / c.maxStep, step <= c.maxStep + EPSILON,
         c.norm(mq.x - mp.x, mq.y - mp.y) <= c.maxStep + EPSILON, ExtentStep(p, q) <= c.maxSizeStep + EPSILON)
  }

  /** All rows below i, and the first j entries of row i. */
  function Table(c: Config, past: Frame, now: Frame, i: nat, j: nat): seq<Pair>
    requires UsableConfig(c) && i <= |past.components| && j <= |now.components| && (i == |past.components| ==> j == 0)
    decreases i, j
  {
    if j > 0 then Table(c, past, now, i, j - 1) + [PairOf(c, past, now, i, j - 1)]
    else if i > 0 then Table(c, past, now, i - 1, |now.components|)
    else []
  }

  function Pairs(c: Config, past: Frame, now: Frame): seq<Pair>
    requires UsableConfig(c)
  {
    Table(c, past, now, |past.components|, 0)
  }

  ghost predicate Distinct(pairs: seq<Pair>) {
    forall x, y :: 0 <= x < y < |pairs| ==> pairs[x].previous != pairs[y].previous || pairs[x].current != pairs[y].current
  }

  /** p is the pair of two components that are there, and stands before row i, column j. */
  ghost predicate Entry(c: Config, past: Frame, now: Frame, i: nat, j: nat, p: Pair)
    requires UsableConfig(c)
  {
    && p.previous < |past.components| && p.current < |now.components|
    && (p.previous < i || (p.previous == i && p.current < j))
    && p == PairOf(c, past, now, p.previous, p.current)
  }

  ghost predicate Entries(c: Config, past: Frame, now: Frame, i: nat, j: nat, pairs: seq<Pair>)
    requires UsableConfig(c)
  {
    forall x :: 0 <= x < |pairs| ==> Entry(c, past, now, i, j, pairs[x])
  }

  lemma EntriesGrow(c: Config, past: Frame, now: Frame, i: nat, j: nat, pairs: seq<Pair>)
    requires UsableConfig(c) && i < |past.components| && j < |now.components|
    requires Distinct(pairs) && Entries(c, past, now, i, j, pairs)
    ensures var more := pairs + [PairOf(c, past, now, i, j)]; Distinct(more) && Entries(c, past, now, i, j + 1, more)
  {
    var more, p := pairs + [PairOf(c, past, now, i, j)], PairOf(c, past, now, i, j);
    forall x | 0 <= x < |more| ensures Entry(c, past, now, i, j + 1, more[x]) {
      if x < |pairs| {
        assert Entry(c, past, now, i, j, pairs[x]);
      }
    }
    forall x, y | 0 <= x < y < |more| ensures more[x].previous != more[y].previous || more[x].current != more[y].current {
      if y == |pairs| {
        assert Entry(c, past, now, i, j, pairs[x]);
      }
    }
  }

  /** Every two components are paired once, and no pair names a component that is not there. */
  lemma {:induction false} TableDistinct(c: Config, past: Frame, now: Frame, i: nat, j: nat)
    requires UsableConfig(c) && i <= |past.components| && j <= |now.components| && (i == |past.components| ==> j == 0)
    ensures Distinct(Table(c, past, now, i, j))
    ensures Entries(c, past, now, i, j, Table(c, past, now, i, j))
    decreases i, j
  {
    if j > 0 {
      TableDistinct(c, past, now, i, j - 1);
      EntriesGrow(c, past, now, i, j - 1, Table(c, past, now, i, j - 1));
    } else if i > 0 {
      TableDistinct(c, past, now, i - 1, |now.components|);
      var pairs := Table(c, past, now, i - 1, |now.components|);
      forall x | 0 <= x < |pairs| ensures Entry(c, past, now, i, 0, pairs[x]) {
        assert Entry(c, past, now, i - 1, |now.components|, pairs[x]);
      }
    }
  }

  // ---------------------------------------------------------------- who is whose best

  datatype Side = OfCurrent | OfPrevious

  /** Near enough, of similar size, and not vetoed as standing still in the map. */
  predicate Live(m: Motion, p: Pair) {
    p.near && p.sameSize && !(m == EgoMotionObservable && p.still)
  }

  predicate Eligible(m: Motion, p: Pair) {
    Live(m, p) && (m == EgoMotionObservable || m == LoadPresentUnobservable)
  }

  predicate On(m: Motion, p: Pair, side: Side, key: nat) {
    Eligible(m, p) && key == (if side == OfCurrent then p.current else p.previous)
  }

  /** The first cheapest eligible pair of one component, or -1. */
  function Best(m: Motion, pairs: seq<Pair>, side: Side, key: nat): (best: int)
    ensures -1 <= best < |pairs|
  {
    if |pairs| == 0 then -1
    else
      var k := |pairs| - 1;
      var best := Best(m, pairs[..k], side, key);
      if On(m, pairs[k], side, key) && (best == -1 || pairs[k].cost < pairs[best].cost) then k else best
  }

  function Competitors(m: Motion, pairs: seq<Pair>, side: Side, key: nat, bound: real): nat {
    if |pairs| == 0 then 0
    else
      var last := pairs[|pairs| - 1];
      Competitors(m, pairs[..|pairs| - 1], side, key, bound) + if On(m, last, side, key) && last.cost <= bound then 1 else 0
  }

  function Bound(c: Config, pairs: seq<Pair>, best: nat): real
    requires best < |pairs|
  {
    pairs[best].cost + c.margin + EPSILON
  }

  predicate Ambiguous(c: Config, m: Motion, pairs: seq<Pair>, side: Side, key: nat) {
    var best := Best(m, pairs, side, key);
    best >= 0 && Competitors(m, pairs, side, key, Bound(c, pairs, best)) != 1
  }

  lemma {:induction false} BestIsCheapest(m: Motion, pairs: seq<Pair>, side: Side, key: nat)
    ensures var best := Best(m, pairs, side, key);
            && (best >= 0 ==> On(m, pairs[best], side, key))
            && (forall x :: 0 <= x < |pairs| && On(m, pairs[x], side, key) ==> best >= 0 && pairs[best].cost <= pairs[x].cost)
  {
    if |pairs| > 0 {
      var k := |pairs| - 1;
      BestIsCheapest(m, pairs[..k], side, key);
      assert forall x :: 0 <= x < k ==> pairs[..k][x] == pairs[x];
    }
  }

  lemma {:induction false} CompetitorsOne(m: Motion, pairs: seq<Pair>, side: Side, key: nat, bound: real, x: nat, y: nat)
    requires x < y < |pairs|
    requires On(m, pairs[x], side, key) && pairs[x].cost <= bound
    requires On(m, pairs[y], side, key) && pairs[y].cost <= bound
    ensures Competitors(m, pairs, side, key, bound) >= 2
  {
    var front := pairs[..|pairs| - 1];
    if y < |front| {
      CompetitorsOne(m, front, side, key, bound, x, y);
    } else {
      CompetitorsSome(m, front, side, key, bound, x);
    }
  }

  lemma {:induction false} CompetitorsSome(m: Motion, pairs: seq<Pair>, side: Side, key: nat, bound: real, x: nat)
    requires x < |pairs| && On(m, pairs[x], side, key) && pairs[x].cost <= bound
    ensures Competitors(m, pairs, side, key, bound) >= 1
  {
    var front := pairs[..|pairs| - 1];
    if x < |front| {
      CompetitorsSome(m, front, side, key, bound, x);
    }
  }

  /** Pair k is cheaper than every other eligible pair of the component by more than the margin. */
  ghost predicate Undisputed(c: Config, m: Motion, pairs: seq<Pair>, side: Side, key: nat, k: nat)
    requires k < |pairs|
  {
    && On(m, pairs[k], side, key)
    && forall x :: 0 <= x < |pairs| && x != k && On(m, pairs[x], side, key) ==> pairs[x].cost > Bound(c, pairs, k)
  }

  lemma {:induction false} UnambiguousIsUndisputed(c: Config, m: Motion, pairs: seq<Pair>, side: Side, key: nat)
    requires c.margin >= 0.0
    ensures var best := Best(m, pairs, side, key);
            best >= 0 && !Ambiguous(c, m, pairs, side, key) ==> Undisputed(c, m, pairs, side, key, best)
  {
    var best := Best(m, pairs, side, key);
    BestIsCheapest(m, pairs, side, key);
    if best >= 0 && !Ambiguous(c, m, pairs, side, key) {
      var bound := Bound(c, pairs, best);
      forall x | 0 <= x < |pairs| && x != best && On(m, pairs[x], side, key) ensures pairs[x].cost > bound {
        if pairs[x].cost <= bound {
          CompetitorsOne(m, pairs, side, key, bound, if x < best then x else best, if x < best then best else x);
        }
      }
    }
  }

  // ---------------------------------------------------------------- one retained frame

  /** A live pair with an ambiguous end. */
  predicate Contested(c: Config, m: Motion, pairs: seq<Pair>, p: Pair) {
    Live(m, p) && (Ambiguous(c, m, pairs, OfCurrent, p.current) || Ambiguous(c, m, pairs, OfPrevious, p.previous))
  }

  predicate Mutual(m: Motion, pairs: seq<Pair>, k: nat)
    requires k < |pairs|
  {
    Best(m, pairs, OfCurrent, pairs[k].current) == k && Best(m, pairs, OfPrevious, pairs[k].previous) == k
  }

  datatype Scan = Scan(blocked: seq<nat>, matched: seq<nat>)

  /** The ids of the current components below n that are ambiguous at this frame. */
  function AmbiguousIds(c: Config, m: Motion, pairs: seq<Pair>, ids: seq<nat>, n: nat): seq<nat>
    requires n <= |ids|
  {
    if n == 0 then []
    else
      var rest := AmbiguousIds(c, m, pairs, ids, n - 1);
      if Ambiguous(c, m, pairs, OfCurrent, n - 1) then rest + [ids[n - 1]] else rest
  }

  ghost predicate Indexed(pairs: seq<Pair>, ids: seq<nat>) {
    forall k :: 0 <= k < |pairs| ==> pairs[k].current < |ids|
  }

  /** What the k-th pair does: a contested pair blocks its current component; a mutual best is matched unless blocked. */
  function Judge(c: Config, m: Motion, pairs: seq<Pair>, ids: seq<nat>, k: nat, s: Scan): Scan
    requires k < |pairs| && pairs[k].current < |ids|
  {
    var id := ids[pairs[k].current];
    if Contested(c, m, pairs, pairs[k]) then (if id in s.blocked then s else s.(blocked := s.blocked + [id]))
    else if Live(m, pairs[k]) && Mutual(m, pairs, k) && id !in s.blocked then s.(matched := s.matched + [k])
    else s
  }

  function Judged(c: Config, m: Motion, pairs: seq<Pair>, ids: seq<nat>, blocked: seq<nat>, k: nat): Scan
    requires k <= |pairs| && Indexed(pairs, ids)
  {
    if k == 0 then Scan(blocked + AmbiguousIds(c, m, pairs, ids, |ids|), [])
    else Judge(c, m, pairs, ids, k - 1, Judged(c, m, pairs, ids, blocked, k - 1))
  }

  /** A matched pair: mutual best, uncontested, of a component not blocked by newer frames. */
  ghost predicate Sound(c: Config, m: Motion, pairs: seq<Pair>, ids: seq<nat>, blocked: seq<nat>, k: nat) {
    && k < |pairs| && pairs[k].current < |ids|
    && Mutual(m, pairs, k) && !Contested(c, m, pairs, pairs[k]) && Live(m, pairs[k])
    && ids[pairs[k].current] !in blocked
  }

  lemma {:induction false} JudgedSound(c: Config, m: Motion, pairs: seq<Pair>, ids: seq<nat>, blocked: seq<nat>, k: nat)
    requires k <= |pairs| && Indexed(pairs, ids)
    ensures var s := Judged(c, m, pairs, ids, blocked, k);
            && Rising(s.matched)
            && (forall i :: 0 <= i < |s.matched| ==> s.matched[i] < k && Sound(c, m, pairs, ids, blocked, s.matched[i]))
            && (forall id :: id in blocked ==> id in s.blocked)
  {
    if k > 0 {
      JudgedSound(c, m, pairs, ids, blocked, k - 1);
    }
  }

  /** Every contested pair has blocked its current component by the end of the frame. */
  lemma {:induction false} ContestedBlocks(c: Config, m: Motion, pairs: seq<Pair>, ids: seq<nat>, blocked: seq<nat>, k: nat, x: nat)
    requires k <= |pairs| && Indexed(pairs, ids) && x < k && Contested(c, m, pairs, pairs[x])
    ensures ids[pairs[x].current] in Judged(c, m, pairs, ids, blocked, k).blocked
  {
    if x < k - 1 {
      ContestedBlocks(c, m, pairs, ids, blocked, k - 1, x);
    }
  }

  /** Matches of one frame are one-to-one, eligible, and beat every rival of either end by more than the margin. */
  lemma {:induction false} FrameMatches(c: Config, m: Motion, pairs: seq<Pair>, ids: seq<nat>, blocked: seq<nat>, ks: seq<nat>)
    requires c.margin >= 0.0 && Indexed(pairs, ids) && ks == Judged(c, m, pairs, ids, blocked, |pairs|).matched
    ensures forall i :: 0 <= i < |ks| ==> ks[i] < |pairs|
    ensures forall i :: 0 <= i < |ks| ==>
              && Undisputed(c, m, pairs, OfCurrent, pairs[ks[i]].current, ks[i])
              && Undisputed(c, m, pairs, OfPrevious, pairs[ks[i]].previous, ks[i])
    ensures forall i, j :: 0 <= i < j < |ks| ==>
              pairs[ks[i]].current != pairs[ks[j]].current && pairs[ks[i]].previous != pairs[ks[j]].previous
  {
    JudgedSound(c, m, pairs, ids, blocked, |pairs|);
    forall i | 0 <= i < |ks|
      ensures ks[i] < |pairs|
      ensures Undisputed(c, m, pairs, OfCurrent, pairs[ks[i]].current, ks[i])
      ensures Undisputed(c, m, pairs, OfPrevious, pairs[ks[i]].previous, ks[i])
    {
      assert Sound(c, m, pairs, ids, blocked, ks[i]);
      UnambiguousIsUndisputed(c, m, pairs, OfCurrent, pairs[ks[i]].current);
      UnambiguousIsUndisputed(c, m, pairs, OfPrevious, pairs[ks[i]].previous);
    }
    forall i, j | 0 <= i < j < |ks|
      ensures pairs[ks[i]].current != pairs[ks[j]].current && pairs[ks[i]].previous != pairs[ks[j]].previous
    {
      assert Sound(c, m, pairs, ids, blocked, ks[i]) && Sound(c, m, pairs, ids, blocked, ks[j]);
    }
  }

  ghost predicate ContestedId(c: Config, m: Motion, pairs: seq<Pair>, ids: seq<nat>, id: nat) {
    exists x :: 0 <= x < |pairs| && pairs[x].current < |ids| && ids[pairs[x].current] == id && Contested(c, m, pairs, pairs[x])
  }

  lemma {:induction false} CompetitorsExact(c: Config, m: Motion, pairs: seq<Pair>, side: Side, key: nat, k: nat, bound: real, n: nat)
    requires k < |pairs| && n <= |pairs| && bound >= pairs[k].cost && On(m, pairs[k], side, key)
    requires forall x :: 0 <= x < |pairs| && x != k && On(m, pairs[x], side, key) ==> pairs[x].cost > bound
    ensures Competitors(m, pairs[..n], side, key, bound) == if k < n then 1 else 0
  {
    if n > 0 {
      CompetitorsExact(c, m, pairs, side, key, k, bound, n - 1);
      assert pairs[..n][..n - 1] == pairs[..n - 1];
    }
  }

  lemma {:induction false} UndisputedIsBest(c: Config, m: Motion, pairs: seq<Pair>, side: Side, key: nat, k: nat)
    requires c.margin >= 0.0 && k < |pairs| && Undisputed(c, m, pairs, side, key, k)
    ensures Best(m, pairs, side, key) == k && !Ambiguous(c, m, pairs, side, key)
  {
    BestIsCheapest(m, pairs, side, key);
    CompetitorsExact(c, m, pairs, side, key, k, Bound(c, pairs, k), |pairs|);
    assert pairs[..|pairs|] == pairs;
  }

  // ---------------------------------------------------------------- exactly what is matched

  /** Some current component with this id is ambiguous. */
  ghost predicate AmbiguousId(c: Config, m: Motion, pairs: seq<Pair>, ids: seq<nat>, n: nat, id: nat) {
    exists j :: 0 <= j < n && j < |ids| && ids[j] == id && Ambiguous(c, m, pairs, OfCurrent, j)
  }

  /** Some pair before position k is contested and belongs to this id. */
  ghost predicate ContestedBefore(c: Config, m: Motion, pairs: seq<Pair>, ids: seq<nat>, k: nat, id: nat) {
    exists x :: 0 <= x < k && x < |pairs| && pairs[x].current < |ids| && ids[pairs[x].current] == id && Contested(c, m, pairs, pairs[x])
  }

  lemma {:induction false} AmbiguousIdsExactly(c: Config, m: Motion, pairs: seq<Pair>, ids: seq<nat>, n: nat, id: nat)
    requires n <= |ids|
    ensures id in AmbiguousIds(c, m, pairs, ids, n) <==> AmbiguousId(c, m, pairs, ids, n, id)
  {
    if n > 0 {
      AmbiguousIdsExactly(c, m, pairs, ids, n - 1, id);
      if Ambiguous(c, m, pairs, OfCurrent, n - 1) && ids[n - 1] == id {
        assert AmbiguousId(c, m, pairs, ids, n, id);
      }
    }
  }

  lemma ContestedOneMore(c: Config, m: Motion, pairs: seq<Pair>, ids: seq<nat>, k: nat, next: nat, id: nat)
    requires next == k + 1 <= |pairs| && pairs[k].current < |ids|
    ensures ContestedBefore(c, m, pairs, ids, next, id) <==>
              ContestedBefore(c, m, pairs, ids, k, id) || (ids[pairs[k].current] == id && Contested(c, m, pairs, pairs[k]))
  {}

  /** What blocks an id when pair k is judged. */
  lemma {:induction false} BlockedExactly(c: Config, m: Motion, pairs: seq<Pair>, ids: seq<nat>, blocked: seq<nat>, k: nat, id: nat)
    requires k <= |pairs| && Indexed(pairs, ids)
    ensures id in Judged(c, m, pairs, ids, blocked, k).blocked <==>
              id in blocked || AmbiguousId(c, m, pairs, ids, |ids|, id) || ContestedBefore(c, m, pairs, ids, k, id)
  {
    if k == 0 {
      AmbiguousIdsExactly(c, m, pairs, ids, |ids|, id);
    } else {
      BlockedExactly(c, m, pairs, ids, blocked, k - 1, id);
      ContestedOneMore(c, m, pairs, ids, k - 1, k, id);
    }
  }

  lemma JudgeMatches(c: Config, m: Motion, pairs: seq<Pair>, ids: seq<nat>, k: nat, s: Scan, x: nat)
    requires k < |pairs| && pairs[k].current < |ids| && k !in s.matched
    ensures x != k ==> (x in Judge(c, m, pairs, ids, k, s).matched <==> x in s.matched)
    ensures k in Judge(c, m, pairs, ids, k, s).matched <==>
              && !Contested(c, m, pairs, pairs[k]) && Live(m, pairs[k]) && Mutual(m, pairs, k)
              && ids[pairs[k].current] !in s.blocked
  {}

  /** A pair is matched when it is judged, or never. */
  lemma {:induction false} MatchedWhenJudged(c: Config, m: Motion, pairs: seq<Pair>, ids: seq<nat>, blocked: seq<nat>, n: nat, k: nat)
    requires k < n <= |pairs| && Indexed(pairs, ids)
    ensures k in Judged(c, m, pairs, ids, blocked, n).matched <==>
              && !Contested(c, m, pairs, pairs[k]) && Live(m, pairs[k]) && Mutual(m, pairs, k)
              && ids[pairs[k].current] !in Judged(c, m, pairs, ids, blocked, k).blocked
  {
    JudgedSound(c, m, pairs, ids, blocked, n - 1);
    JudgeMatches(c, m, pairs, ids, n - 1, Judged(c, m, pairs, ids, blocked, n - 1), k);
    if k < n - 1 {
      MatchedWhenJudged(c, m, pairs, ids, blocked, n - 1, k);
    }
  }

  /**
   A pair undisputed at both ends is matched if and only if its component is not blocked by newer frames,
   no component of that id is ambiguous, and no contested pair of that id stands before it in the table.
   */
  lemma {:induction false} UndisputedIsMatched(c: Config, m: Motion, pairs: seq<Pair>, ids: seq<nat>, blocked: seq<nat>, k: nat)
    requires c.margin >= 0.0 && Indexed(pairs, ids) && k < |pairs|
    requires Undisputed(c, m, pairs, OfCurrent, pairs[k].current, k) && Undisputed(c, m, pairs, OfPrevious, pairs[k].previous, k)
    ensures var id := ids[pairs[k].current];
            k in Judged(c, m, pairs, ids, blocked, |pairs|).matched <==>
              id !in blocked && !AmbiguousId(c, m, pairs, ids, |ids|, id) && !ContestedBefore(c, m, pairs, ids, k, id)
  {
    UndisputedIsBest(c, m, pairs, OfCurrent, pairs[k].current, k);
    UndisputedIsBest(c, m, pairs, OfPrevious, pairs[k].previous, k);
    MatchedWhenJudged(c, m, pairs, ids, blocked, |pairs|, k);
    BlockedExactly(c, m, pairs, ids, blocked, k, ids[pairs[k].current]);
  }

  /** Two equally cheap pairs make their common previous component ambiguous, and both pairs contested. */
  lemma TieContests(c: Config, m: Motion, pairs: seq<Pair>, x: nat, y: nat)
    requires c.margin >= 0.0 && m == LoadPresentUnobservable && x < y < |pairs|
    requires Eligible(m, pairs[x]) && Eligible(m, pairs[y]) && pairs[x].previous == pairs[y].previous && pairs[x].cost == pairs[y].cost
    requires forall z :: 0 <= z < |pairs| && On(m, pairs[z], OfPrevious, pairs[x].previous) ==> pairs[z].cost >= pairs[x].cost
    ensures Contested(c, m, pairs, pairs[x]) && Contested(c, m, pairs, pairs[y])
  {
    var key := pairs[x].previous;
    BestIsCheapest(m, pairs, OfPrevious, key);
    assert On(m, pairs[x], OfPrevious, key);
    CompetitorsOne(m, pairs, OfPrevious, key, Bound(c, pairs, Best(m, pairs, OfPrevious, key)), x, y);
  }

  /** A component with one eligible pair is not ambiguous. */
  lemma LoneIsUnambiguous(c: Config, m: Motion, pairs: seq<Pair>, key: nat, k: nat)
    requires c.margin >= 0.0 && k < |pairs| && On(m, pairs[k], OfCurrent, key)
    requires forall x :: 0 <= x < |pairs| && x != k ==> !On(m, pairs[x], OfCurrent, key)
    ensures !Ambiguous(c, m, pairs, OfCurrent, key)
  {
    UndisputedIsBest(c, m, pairs, OfCurrent, key, k);
  }

  // ---------------------------------------------------------------- all retained frames, newest first

  datatype Progress = Progress(blocked: seq<nat>, matches: seq<Match>)

  function Ids(f: Frame): seq<nat> { seq(|f.components|, i requires 0 <= i < |f.components| => f.components[i].id) }

  predicate InGap(c: Config, past: Frame, now: Frame) { 0.0 < now.stamp - past.stamp <= c.maxGap }

  function MotionOf(c: Config, past: Frame, now: Frame): Motion { Observability(c, EgoStep(c, past.pose, now.pose), now) }

  lemma PairsIndexed(c: Config, past: Frame, now: Frame)
    requires UsableConfig(c)
    ensures Distinct(Pairs(c, past, now)) && Indexed(Pairs(c, past, now), Ids(now))
    ensures forall k :: 0 <= k < |Pairs(c, past, now)| ==>
              var p := Pairs(c, past, now)[k];
              p.previous < |past.components| && p.current < |now.components| && p == PairOf(c, past, now, p.previous, p.current)
  {
    var pairs := Pairs(c, past, now);
    TableDistinct(c, past, now, |past.components|, 0);
    forall k | 0 <= k < |pairs|
      ensures pairs[k].previous < |past.components| && pairs[k].current < |now.components|
      ensures pairs[k] == PairOf(c, past, now, pairs[k].previous, pairs[k].current)
    {
      assert Entry(c, past, now, |past.components|, 0, pairs[k]);
    }
  }

  function MatchOf(past: Frame, now: Frame, offset: nat, p: Pair): Match
    requires p.previous < |past.components| && p.current < |now.components|
  {
    Match(offset, past.stamp, past.components[p.previous].id, now.components[p.current].id, p)
  }

  function Report(c: Config, past: Frame, now: Frame, offset: nat, ks: seq<nat>): seq<Match>
    requires UsableConfig(c) && forall i :: 0 <= i < |ks| ==> ks[i] < |Pairs(c, past, now)|
  {
    PairsIndexed(c, past, now);
    seq(|ks|, i requires 0 <= i < |ks| => MatchOf(past, now, offset, Pairs(c, past, now)[ks[i]]))
  }

  function ScanOf(c: Config, past: Frame, now: Frame, blocked: seq<nat>): Scan
    requires UsableConfig(c)
  {
    PairsIndexed(c, past, now);
    Judged(c, MotionOf(c, past, now), Pairs(c, past, now), Ids(now), blocked, |Pairs(c, past, now)|)
  }

  function AtFrame(c: Config, past: Frame, now: Frame, offset: nat, p: Progress): Progress
    requires UsableConfig(c)
  {
    if !InGap(c, past, now) then p
    else
      var s := ScanOf(c, past, now, p.blocked);
      PairsIndexed(c, past, now);
      JudgedSound(c, MotionOf(c, past, now), Pairs(c, past, now), Ids(now), p.blocked, |Pairs(c, past, now)|);
      Progress(s.blocked, p.matches + Report(c, past, now, offset, s.matched))
  }

  /** After the n newest retained frames. */
  function AfterFrames(c: Config, recent: seq<Frame>, now: Frame, n: nat): Progress
    requires UsableConfig(c) && n <= |recent|
  {
    if n == 0 then Progress([], []) else AtFrame(c, recent[|recent| - n], now, n, AfterFrames(c, recent, now, n - 1))
  }

  /** The frame `offset` places back has a contested pair for this current component. */
  ghost predicate ContestedAt(c: Config, recent: seq<Frame>, now: Frame, offset: nat, id: nat)
    requires UsableConfig(c)
  {
    && 1 <= offset <= |recent| && InGap(c, recent[|recent| - offset], now)
    && var past := recent[|recent| - offset]; var pairs := Pairs(c, past, now);
       exists x :: 0 <= x < |pairs| && pairs[x].current < |now.components|
                   && now.components[pairs[x].current].id == id && Contested(c, MotionOf(c, past, now), pairs, pairs[x])
  }

  /** A match: an eligible pair of its frame, undisputed at both ends, never contested at a newer frame. */
  ghost predicate Justified(c: Config, recent: seq<Frame>, now: Frame, x: Match)
    requires UsableConfig(c)
  {
    && 1 <= x.offset <= |recent| && InGap(c, recent[|recent| - x.offset], now)
    && var past := recent[|recent| - x.offset]; var pairs, m := Pairs(c, past, now), MotionOf(c, past, now);
       && x.pair.previous < |past.components| && x.pair.current < |now.components| && x == MatchOf(past, now, x.offset, x.pair)
       && (exists k :: 0 <= k < |pairs| && pairs[k] == x.pair
                       && Undisputed(c, m, pairs, OfCurrent, x.pair.current, k) && Undisputed(c, m, pairs, OfPrevious, x.pair.previous, k))
       && (forall b: nat :: b < x.offset ==> !ContestedAt(c, recent, now, b, x.currentId))
  }

  /** Matches against one retained frame never share a component. */
  ghost predicate OneToOne(matches: seq<Match>) {
    forall i, j :: 0 <= i < j < |matches| && matches[i].offset == matches[j].offset ==>
      matches[i].pair.current != matches[j].pair.current && matches[i].pair.previous != matches[j].pair.previous
  }

  ghost predicate AllBlocked(c: Config, recent: seq<Frame>, now: Frame, n: nat, blocked: seq<nat>)
    requires UsableConfig(c)
  {
    forall b: nat, id: nat :: b <= n && ContestedAt(c, recent, now, b, id) ==> id in blocked
  }

  lemma FrameBlocksOwn(c: Config, recent: seq<Frame>, now: Frame, n: nat, p: Progress, id: nat)
    requires UsableConfig(c) && 1 <= n <= |recent| && ContestedAt(c, recent, now, n, id)
    ensures id in AtFrame(c, recent[|recent| - n], now, n, p).blocked
  {
    var past := recent[|recent| - n];
    var pairs, m := Pairs(c, past, now), MotionOf(c, past, now);
    PairsIndexed(c, past, now);
    var x: nat :| x < |pairs| && pairs[x].current < |now.components|
                  && now.components[pairs[x].current].id == id && Contested(c, m, pairs, pairs[x]);
    ContestedBlocks(c, m, pairs, Ids(now), p.blocked, |pairs|, x);
  }

  lemma FrameKeepsBlocked(c: Config, past: Frame, now: Frame, n: nat, p: Progress)
    requires UsableConfig(c)
    ensures forall id :: id in p.blocked ==> id in AtFrame(c, past, now, n, p).blocked
  {
    PairsIndexed(c, past, now);
    JudgedSound(c, MotionOf(c, past, now), Pairs(c, past, now), Ids(now), p.blocked, |Pairs(c, past, now)|);
  }

  lemma FrameBlocks(c: Config, recent: seq<Frame>, now: Frame, n: nat, p: Progress)
    requires UsableConfig(c) && 1 <= n <= |recent| && AllBlocked(c, recent, now, n - 1, p.blocked)
    ensures AllBlocked(c, recent, now, n, AtFrame(c, recent[|recent| - n], now, n, p).blocked)
  {
    var q := AtFrame(c, recent[|recent| - n], now, n, p);
    FrameKeepsBlocked(c, recent[|recent| - n], now, n, p);
    forall b: nat, id: nat | b <= n && ContestedAt(c, recent, now, b, id) ensures id in q.blocked {
      if b == n {
        FrameBlocksOwn(c, recent, now, n, p, id);
      }
    }
  }

  lemma NewMatch(c: Config, recent: seq<Frame>, now: Frame, n: nat, p: Progress, i: nat)
    requires UsableConfig(c) && 1 <= n <= |recent| && AllBlocked(c, recent, now, n - 1, p.blocked)
    requires var past := recent[|recent| - n]; InGap(c, past, now) && i < |ScanOf(c, past, now, p.blocked).matched|
    ensures var past := recent[|recent| - n];
            && ScanOf(c, past, now, p.blocked).matched[i] < |Pairs(c, past, now)|
            && Pairs(c, past, now)[ScanOf(c, past, now, p.blocked).matched[i]].previous < |past.components|
            && Pairs(c, past, now)[ScanOf(c, past, now, p.blocked).matched[i]].current < |now.components|
            && Justified(c, recent, now, MatchOf(past, now, n, Pairs(c, past, now)[ScanOf(c, past, now, p.blocked).matched[i]]))
  {
    var past := recent[|recent| - n];
    var pairs, m, ids := Pairs(c, past, now), MotionOf(c, past, now), Ids(now);
    PairsIndexed(c, past, now);
    JudgedSound(c, m, pairs, ids, p.blocked, |pairs|);
    FrameMatches(c, m, pairs, ids, p.blocked, ScanOf(c, past, now, p.blocked).matched);
    var k := ScanOf(c, past, now, p.blocked).matched[i];
    assert Sound(c, m, pairs, ids, p.blocked, k);
    assert Undisputed(c, m, pairs, OfCurrent, pairs[k].current, k);
    assert Undisputed(c, m, pairs, OfPrevious, pairs[k].previous, k);
  }

  ghost predicate Reported(c: Config, recent: seq<Frame>, now: Frame, n: nat, matches: seq<Match>)
    requires UsableConfig(c)
  {
    && OneToOne(matches)
    && forall i :: 0 <= i < |matches| ==> matches[i].offset <= n && Justified(c, recent, now, matches[i])
  }

  lemma ReportDistinct(c: Config, past: Frame, now: Frame, offset: nat, ks: seq<nat>)
    requires UsableConfig(c) && forall i :: 0 <= i < |ks| ==> ks[i] < |Pairs(c, past, now)|
    requires var pairs := Pairs(c, past, now);
             forall i, j :: 0 <= i < j < |ks| ==>
               pairs[ks[i]].current != pairs[ks[j]].current && pairs[ks[i]].previous != pairs[ks[j]].previous
    ensures OneToOne(Report(c, past, now, offset, ks))
    ensures forall x :: x in Report(c, past, now, offset, ks) ==> x.offset == offset
  {
    PairsIndexed(c, past, now);
    var r, pairs := Report(c, past, now, offset, ks), Pairs(c, past, now);
    assert |r| == |ks| && forall i :: 0 <= i < |r| ==> r[i].offset == offset && r[i].pair == pairs[ks[i]];
  }

  lemma ReportOneToOne(c: Config, past: Frame, now: Frame, offset: nat, blocked: seq<nat>)
    requires UsableConfig(c)
    ensures var ks := ScanOf(c, past, now, blocked).matched;
            && (forall i :: 0 <= i < |ks| ==> ks[i] < |Pairs(c, past, now)|)
            && OneToOne(Report(c, past, now, offset, ks))
            && forall x :: x in Report(c, past, now, offset, ks) ==> x.offset == offset
  {
    PairsIndexed(c, past, now);
    var ks := ScanOf(c, past, now, blocked).matched;
    FrameMatches(c, MotionOf(c, past, now), Pairs(c, past, now), Ids(now), blocked, ks);
    ReportDistinct(c, past, now, offset, ks);
  }

  lemma ConcatOneToOne(a: seq<Match>, b: seq<Match>, n: nat)
    requires OneToOne(a) && OneToOne(b)
    requires (forall i :: 0 <= i < |a| ==> a[i].offset < n) && (forall x :: x in b ==> x.offset == n)
    ensures OneToOne(a + b)
  {
    var all := a + b;
    forall i, j | 0 <= i < j < |all| && all[i].offset == all[j].offset
      ensures all[i].pair.current != all[j].pair.current && all[i].pair.previous != all[j].pair.previous
    {
      if j >= |a| {
        assert b[j - |a|] in b;
        assert i >= |a|;
        assert all[i] == b[i - |a|];
      }
    }
  }

  lemma FrameReports(c: Config, recent: seq<Frame>, now: Frame, n: nat, p: Progress)
    requires UsableConfig(c) && 1 <= n <= |recent|
    requires AllBlocked(c, recent, now, n - 1, p.blocked) && Reported(c, recent, now, n - 1, p.matches)
    ensures Reported(c, recent, now, n, AtFrame(c, recent[|recent| - n], now, n, p).matches)
  {
    var past := recent[|recent| - n];
    if InGap(c, past, now) {
      var ks := ScanOf(c, past, now, p.blocked).matched;
      ReportOneToOne(c, past, now, n, p.blocked);
      var found := Report(c, past, now, n, ks);
      ConcatOneToOne(p.matches, found, n);
      forall i | 0 <= i < |found| ensures Justified(c, recent, now, found[i]) {
        NewMatch(c, recent, now, n, p, i);
      }
    }
  }

  lemma {:induction false} AllFramesReport(c: Config, recent: seq<Frame>, now: Frame, n: nat)
    requires UsableConfig(c) && n <= |recent|
    ensures AllBlocked(c, recent, now, n, AfterFrames(c, recent, now, n).blocked)
    ensures Reported(c, recent, now, n, AfterFrames(c, recent, now, n).matches)
  {
    if n > 0 {
      AllFramesReport(c, recent, now, n - 1);
      FrameBlocks(c, recent, now, n, AfterFrames(c, recent, now, n - 1));
      FrameReports(c, recent, now, n, AfterFrames(c, recent, now, n - 1));
    }
  }

  // ---------------------------------------------------------------- one update

  function Retain(recent: seq<Frame>): seq<Frame> {
    if |recent| > MAXIMUM_RECENT_FRAMES then recent[|recent| - MAXIMUM_RECENT_FRAMES..] else recent
  }

  function Step(c: Config, recent: seq<Frame>, f: Frame): (seq<Frame>, seq<Match>)
    requires UsableConfig(c)
  {
    if !f.usable then ([], [])
    else
      var now := f.(components := Kept(f.components, f.stamp));
      if |recent| == 0 || !Follows(c, recent[|recent| - 1], now) then ([now], [])
      else (Retain(recent + [now]), AfterFrames(c, recent, now, |recent|).matches)
  }

  ghost predicate Successive(a: Frame, b: Frame) {
    && a.stamp < b.stamp && a.index < b.index
    && a.lifecycle == b.lifecycle && a.epoch == b.epoch && a.authority == b.authority
  }

  /** At most three frames of one lifecycle, epoch and pose authority, stamps and indices strictly rising. */
  ghost predicate Coherent(recent: seq<Frame>) {
    && |recent| <= MAXIMUM_RECENT_FRAMES
    && (forall i, j :: 0 <= i < j < |recent| ==> Successive(recent[i], recent[j]))
    && (forall i :: 0 <= i < |recent| ==> recent[i].usable)
  }

  lemma AppendSuccessive(c: Config, recent: seq<Frame>, now: Frame)
    requires Coherent(recent) && |recent| > 0 && Follows(c, recent[|recent| - 1], now) && now.usable
    ensures var all := recent + [now]; forall i, j :: 0 <= i < j < |all| ==> Successive(all[i], all[j])
  {
    var all := recent + [now];
    forall i, j | 0 <= i < j < |all| ensures Successive(all[i], all[j]) {
      if j == |recent| && i < |recent| - 1 {
        assert Successive(recent[i], recent[|recent| - 1]);
      }
    }
  }

  lemma RetainSuccessive(all: seq<Frame>)
    requires forall i, j :: 0 <= i < j < |all| ==> Successive(all[i], all[j])
    requires forall i :: 0 <= i < |all| ==> all[i].usable
    ensures Coherent(Retain(all))
  {
    var kept := Retain(all);
    forall i, j | 0 <= i < j < |kept| ensures Successive(kept[i], kept[j]) {
      assert kept[i] == all[|all| - |kept| + i] && kept[j] == all[|all| - |kept| + j];
    }
  }

  lemma StepCoherent(c: Config, recent: seq<Frame>, f: Frame)
    requires UsableConfig(c) && Coherent(recent)
    ensures Coherent(Step(c, recent, f).0)
  {
    var now := f.(components := Kept(f.components, f.stamp));
    if f.usable && |recent| > 0 && Follows(c, recent[|recent| - 1], now) {
      AppendSuccessive(c, recent, now);
      RetainSuccessive(recent + [now]);
    }
  }

  function After(c: Config, run: seq<Frame>): seq<Frame>
    requires UsableConfig(c)
  {
    if |run| == 0 then [] else Step(c, After(c, run[..|run| - 1]), run[|run| - 1]).0
  }

  lemma {:induction false} RunCoherent(c: Config, run: seq<Frame>)
    requires UsableConfig(c)
    ensures Coherent(After(c, run))
  {
    if |run| > 0 {
      RunCoherent(c, run[..|run| - 1]);
      StepCoherent(c, After(c, run[..|run| - 1]), run[|run| - 1]);
    }
  }

  /** On every run: matches against each retained frame are one-to-one, undisputed, and uncontested at newer frames. */
  lemma {:induction false} RunReports(c: Config, run: seq<Frame>, f: Frame)
    requires UsableConfig(c)
    ensures var recent := After(c, run);
            Coherent(recent) && Reported(c, recent, f.(components := Kept(f.components, f.stamp)), |recent|, Step(c, recent, f).1)
  {
    var recent := After(c, run);
    RunCoherent(c, run);
    AllFramesReport(c, recent, f.(components := Kept(f.components, f.stamp)), |recent|);
  }

  // ---------------------------------------------------------------- the object

  method KeepComponents(components: seq<Component>, stamp: real) returns (kept: seq<Component>)
    ensures kept == Kept(components, stamp)
  {
    kept := [];
    for k := 0 to |components|
      invariant kept == Kept(components[..k], stamp)
    {
      assert components[..k + 1][..k] == components[..k];
      if KeepComponent(components[k], stamp) {
        kept := kept + [components[k]];
      }
    }
    assert components[..|components|] == components;
  }

  method BuildPairs(c: Config, past: Frame, now: Frame) returns (pairs: seq<Pair>)
    requires UsableConfig(c)
    ensures pairs == Pairs(c, past, now)
  {
    pairs := [];
    for i := 0 to |past.components|
      invariant pairs == Table(c, past, now, i, 0)
    {
      for j := 0 to |now.components|
        invariant pairs == Table(c, past, now, i, j)
      {
        pairs := pairs + [PairOf(c, past, now, i, j)];
      }
    }
  }

  method CountCompetitors(m: Motion, pairs: seq<Pair>, side: Side, key: nat, bound: real) returns (competitive: nat)
    ensures competitive == Competitors(m, pairs, side, key, bound)
  {
    competitive := 0;
    for k := 0 to |pairs|
      invariant competitive == Competitors(m, pairs[..k], side, key, bound)
    {
      assert pairs[..k + 1][..k] == pairs[..k];
      if On(m, pairs[k], side, key) && pairs[k].cost <= bound {
        competitive := competitive + 1;
      }
    }
    assert pairs[..|pairs|] == pairs;
  }

  /** One component's scan: its best pair, and whether rivals lie within the margin. */
  method ScanSide(c: Config, m: Motion, pairs: seq<Pair>, side: Side, key: nat) returns (best: int, ambiguous: bool)
    ensures best == Best(m, pairs, side, key) && ambiguous == Ambiguous(c, m, pairs, side, key)
  {
    best, ambiguous := -1, false;
    for k := 0 to |pairs|
      invariant best == Best(m, pairs[..k], side, key)
    {
      assert pairs[..k + 1][..k] == pairs[..k];
      if On(m, pairs[k], side, key) && (best == -1 || pairs[k].cost < pairs[best].cost) {
        best := k;
      }
    }
    assert pairs[..|pairs|] == pairs;
    if best >= 0 {
      var competitive := CountCompetitors(m, pairs, side, key, Bound(c, pairs, best));
      ambiguous := competitive != 1;
    }
  }

  /** The best pair and the ambiguity flag of every component of one side. */
  method ScanAll(c: Config, m: Motion, pairs: seq<Pair>, side: Side, count: nat) returns (best: seq<int>, ambiguous: seq<bool>)
    ensures |best| == count && |ambiguous| == count
    ensures forall k :: 0 <= k < count ==> best[k] == Best(m, pairs, side, k) && ambiguous[k] == Ambiguous(c, m, pairs, side, k)
  {
    best, ambiguous := [], [];
    for key := 0 to count
      invariant |best| == |ambiguous| == key
      invariant forall k :: 0 <= k < key ==> best[k] == Best(m, pairs, side, k) && ambiguous[k] == Ambiguous(c, m, pairs, side, k)
    {
      var b, a := ScanSide(c, m, pairs, side, key);
      best, ambiguous := best + [b], ambiguous + [a];
    }
  }

  method BlockAmbiguous(c: Config, m: Motion, pairs: seq<Pair>, ids: seq<nat>, flags: seq<bool>, before: seq<nat>) returns (blocked: seq<nat>)
    requires |flags| == |ids| && forall k :: 0 <= k < |ids| ==> flags[k] == Ambiguous(c, m, pairs, OfCurrent, k)
    ensures blocked == before + AmbiguousIds(c, m, pairs, ids, |ids|)
  {
    blocked := before;
    for k := 0 to |ids|
      invariant blocked == before + AmbiguousIds(c, m, pairs, ids, k)
    {
      if flags[k] {
        blocked := blocked + [ids[k]];
      }
    }
  }

  /** One turn of the emission loop, from the two ambiguity flags and the mutual-best flag of the pair. */
  method JudgePair(c: Config, m: Motion, pairs: seq<Pair>, ids: seq<nat>, k: nat, ambiguous: bool, mutual: bool, s: Scan) returns (t: Scan)
    requires k < |pairs| && pairs[k].current < |ids| && mutual == Mutual(m, pairs, k)
    requires ambiguous == (Ambiguous(c, m, pairs, OfCurrent, pairs[k].current) || Ambiguous(c, m, pairs, OfPrevious, pairs[k].previous))
    ensures t == Judge(c, m, pairs, ids, k, s)
  {
    t := s;
    if Live(m, pairs[k]) {
      var id := ids[pairs[k].current];
      if ambiguous {
        if id !in s.blocked {
          t := t.(blocked := s.blocked + [id]);
        }
      } else if mutual && id !in s.blocked {
        t := t.(matched := s.matched + [k]);
      }
    }
  }

  /** The emission loop over one retained frame's pairs. */
  method MatchFrame(c: Config, past: Frame, now: Frame, offset: nat, p: Progress) returns (q: Progress)
    requires UsableConfig(c)
    ensures q == AtFrame(c, past, now, offset, p)
  {
    if !InGap(c, past, now) {
      return p;
    }
    var m, ids := MotionOf(c, past, now), Ids(now);
    var pairs := BuildPairs(c, past, now);
    PairsIndexed(c, past, now);
    var currentBest, currentAmbiguous := ScanAll(c, m, pairs, OfCurrent, |ids|);
    var previousBest, previousAmbiguous := ScanAll(c, m, pairs, OfPrevious, |past.components|);
    var blocked := BlockAmbiguous(c, m, pairs, ids, currentAmbiguous, p.blocked);
    var scan := Scan(blocked, []);
    for k := 0 to |pairs|
      invariant scan == Judged(c, m, pairs, ids, p.blocked, k)
    {
      var i, j := pairs[k].current, pairs[k].previous;
      scan := JudgePair(c, m, pairs, ids, k, currentAmbiguous[i] || previousAmbiguous[j], currentBest[i] == k && previousBest[j] == k, scan);
    }
    JudgedSound(c, m, pairs, ids, p.blocked, |pairs|);
    q := Progress(scan.blocked, p.matches + Report(c, past, now, offset, scan.matched));
  }

  method DropOldest(frames: seq<Frame>) returns (kept: seq<Frame>)
    ensures kept == Retain(frames)
  {
    kept := frames;
    while |kept| > MAXIMUM_RECENT_FRAMES
      invariant Retain(kept) == Retain(frames)
      decreases |kept|
    {
      kept := kept[1..];
    }
  }

  class Lineage {
    const config: Config
    var recent: seq<Frame>

    ghost predicate Valid()
      reads this
    {
      UsableConfig(config) && Coherent(recent)
    }

    constructor (c: Config)
      ensures Valid() && config == Sanitized(c) && recent == []
    {
      config := Sanitized(c);
      recent := [];
    }

    method Update(f: Frame) returns (matches: seq<Match>)
      requires Valid()
      modifies this
      ensures Valid() && (recent, matches) == Step(config, old(recent), f)
    {
      StepCoherent(config, recent, f);
      matches := [];
      if !f.usable {
        recent := [];
        return;
      }
      var kept := KeepComponents(f.components, f.stamp);
      var now := f.(components := kept);
      if |recent| > 0 && !Follows(config, recent[|recent| - 1], now) {
        recent := [];
      }
      if |recent| == 0 {
        recent := [now];
        return;
      }
      var p := Progress([], []);
      for n := 0 to |recent|
        invariant recent == old(recent) && p == AfterFrames(config, recent, now, n)
      {
        p := MatchFrame(config, recent[|recent| - (n + 1)], now, n + 1, p);
      }
      matches := p.matches;
      var grown := recent + [now];
      recent := DropOldest(grown);
    }
  }
}
