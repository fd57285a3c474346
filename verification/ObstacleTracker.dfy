/** One update of the obstacle tracker, as a function of the state and as the object's method. */
module ObstacleTracker {
  import opened Prelude
  import opened ObstacleTracks
  import opened GreedyAssociation
  import Sorting

  datatype Policy = Policy(requireStaticCargo: bool, requireLargeGeometry: bool)

  /** stamp is None when it is not finite. */
  datatype Frame = Frame(stamp: Option<real>, observations: seq<Observation>, policy: Policy)

  datatype State = State(tracks: seq<Track>, nextId: nat, cycle: nat, hasStamp: bool, lastStamp: real)

  const INITIAL := State([], 1, 0, false, 0.0)

  /** Ids of the tracks selected for a formal warning, for review, and as the most dangerous observed one. */
  datatype Decision = Decision(
    valid: bool, hazardObserved: bool, confirmed: Option<nat>, review: Option<nat>, candidate: Option<nat>, warningCode: nat)

  const NO_DECISION := Decision(false, false, None, None, None, 0)

  // ---------------------------------------------------------------- canonical observations

  function InsertCell(x: int, s: seq<int>): seq<int> {
    if s == [] then [x] else if x < s[0] then [x] + s else if x == s[0] then s else [s[0]] + InsertCell(x, s[1..])
  }

  /** Sorted without repeats. */
  function CanonicalCells(s: seq<int>): seq<int> {
    if s == [] then [] else InsertCell(s[0], CanonicalCells(s[1..]))
  }

  function Keeps(c: Config): Observation -> bool { (o: Observation) => ValidObservation(o, c) }

  function Canonicalise(): Observation -> Observation { (o: Observation) => o.(cells := CanonicalCells(o.cells)) }

  /** The valid observations in order, each with canonical cells. */
  function Prepared(observations: seq<Observation>, c: Config): seq<Observation> {
    Sorting.Collected(observations, Keeps(c), Canonicalise())
  }

  /** The comparison key; an unknown clearance sorts after every known one. */
  function CanonicalKey(o: Observation): seq<real> {
    [o.centroid.x, o.centroid.y, o.centroid.z, o.top, o.bottom, o.distance,
     if o.clearance.Some? then 0.0 else 1.0, if o.clearance.Some? then o.clearance.value else 0.0,
     if o.hazardGeometry then 1.0 else 0.0, o.sourceIndex as real]
    + seq(|o.cells|, i requires 0 <= i < |o.cells| => o.cells[i] as real)
  }

  predicate RealLess(x: real, y: real) { x < y }

  predicate CanonicalLess(a: Observation, b: Observation) { Sorting.LexLess(RealLess, CanonicalKey(a), CanonicalKey(b)) }

  function Canonical(observations: seq<Observation>, c: Config): seq<Observation> {
    Sorting.SortBy(CanonicalLess, Prepared(observations, c))
  }

  // ---------------------------------------------------------------- legal pairs

  /** Where the track is expected at the stamp. */
  function Predicted(t: Track, stamp: real): Vec3 {
    var ahead := Max(0.0, stamp - t.timing.lastStamp);
    Vec3(t.body.centroid.x + t.body.velocity.x * ahead, t.body.centroid.y + t.body.velocity.y * ahead,
         t.body.centroid.z + t.body.velocity.z * ahead)
  }

  function LegalPair(obs: seq<Observation>, tracks: seq<Track>, i: nat, j: nat, stamp: real, c: Config, g: Geometry): Option<Pair>
    requires i < |obs| && j < |tracks| && ValidConfig(c)
  {
    var o, t := obs[i], tracks[j];
    var gap := stamp - t.timing.lastStamp;
    if gap < -STAMP_EPSILON || gap > c.maximumGap + STAMP_EPSILON then None
    else
      var distance := g.planarDistance(o.centroid, Predicted(t, stamp));
      var overlap := CellOverlap(o.cells, t.body.cells);
      var iou := CellIou(o.cells, t.body.cells);
      var neighbor := g.neighborOverlap(o.cells, t.body.cells);
      var spatial := distance <= c.maximumCentroidDistance || overlap >= c.cellOverlapMin || iou >= c.iouMin
                     || (neighbor >= c.cellOverlapMin && distance <= 2.0 * c.maximumCentroidDistance);
      if !spatial || Abs(o.top - t.body.top) > c.maximumTopStep then None
      else
        var cost := distance / c.maximumCentroidDistance
                    + (if o.cells == [] || t.body.cells == [] then 1.0 else 1.0 - Max(Max(overlap, iou), 0.8 * neighbor));
        Some(Pair(i, j, cost, overlap, iou, neighbor))
  }

  /** The legal pairs of observation i with the first m tracks. */
  function LegalRow(obs: seq<Observation>, tracks: seq<Track>, i: nat, m: nat, stamp: real, c: Config, g: Geometry): seq<Pair>
    requires i < |obs| && m <= |tracks| && ValidConfig(c)
  {
    if m == 0 then []
    else
      var p := LegalPair(obs, tracks, i, m - 1, stamp, c, g);
      LegalRow(obs, tracks, i, m - 1, stamp, c, g) + (if p.Some? then [p.value] else [])
  }

  function LegalPairs(obs: seq<Observation>, tracks: seq<Track>, n: nat, stamp: real, c: Config, g: Geometry): seq<Pair>
    requires n <= |obs| && ValidConfig(c)
  {
    if n == 0 then []
    else LegalPairs(obs, tracks, n - 1, stamp, c, g) + LegalRow(obs, tracks, n - 1, |tracks|, stamp, c, g)
  }

  /** Cheapest first, then by track id, then by observation. */
  function PairLess(tracks: seq<Track>): (Pair, Pair) -> bool {
    (p: Pair, q: Pair) =>
      var left := if p.track < |tracks| then tracks[p.track].id else 0;
      var right := if q.track < |tracks| then tracks[q.track].id else 0;
      if p.cost != q.cost then p.cost < q.cost
      else if left != right then left < right
      else p.obs < q.obs
  }

  function SortedPairs(obs: seq<Observation>, tracks: seq<Track>, stamp: real, c: Config, g: Geometry): seq<Pair>
    requires ValidConfig(c)
  {
    Sorting.SortBy(PairLess(tracks), LegalPairs(obs, tracks, |obs|, stamp, c, g))
  }

  // ---------------------------------------------------------------- integrating the observations

  datatype Outcome = Created | Advanced(track: nat) | Frozen(track: nat) | Competing

  function OutcomeOf(pairs: seq<Pair>, k: nat): Outcome {
    var i := TakenPair(pairs, k, |pairs|);
    if i >= 0 then if ReciprocalUnique(pairs, i) then Advanced(pairs[i].track) else Frozen(pairs[i].track)
    else if TallyOf(pairs, OfObservation, k).count > 0 then Competing
    else Created
  }

  predicate HasPair(pairs: seq<Pair>, k: nat, j: nat) {
    exists p | p in pairs :: p.obs == k && p.track == j
  }

  function MetricsOf(pairs: seq<Pair>, k: nat, o: Observation, t: Track): Metrics {
    var i := TakenPair(pairs, k, |pairs|);
    var anchor := CellOverlap(o.cells, t.body.anchorCells);
    if i >= 0 then Metrics(pairs[i].overlap, pairs[i].iou, pairs[i].neighborOverlap, anchor, pairs[i].cost)
    else Metrics(0.0, 0.0, 0.0, anchor, 0.0)
  }

  function ExposeCompeting(tracks: seq<Track>, pairs: seq<Pair>, k: nat, o: Observation): seq<Track> {
    seq(|tracks|, j requires 0 <= j < |tracks| => if HasPair(pairs, k, j) then Expose(tracks[j], o) else tracks[j])
  }

  /** The tracks after observation k. */
  function Integrate(tracks: seq<Track>, nextId: nat, pairs: seq<Pair>, k: nat, o: Observation,
                     stamp: real, cycle: nat, c: Config, g: Geometry): seq<Track>
  {
    match OutcomeOf(pairs, k)
    case Competing => ExposeCompeting(tracks, pairs, k, o)
    case Created => tracks + [NewTrackFrom(nextId, o, stamp, cycle, tracks == [], c)]
    case Advanced(j) =>
      if j < |tracks| then tracks[j := Advance(tracks[j], o, MetricsOf(pairs, k, o, tracks[j]), stamp, cycle, c, g)] else tracks
    case Frozen(j) =>
      if j < |tracks| then tracks[j := Freeze(tracks[j], o, MetricsOf(pairs, k, o, tracks[j]))] else tracks
  }

  function NextId(nextId: nat, pairs: seq<Pair>, k: nat): nat {
    if OutcomeOf(pairs, k) == Created then nextId + 1 else nextId
  }

  /** Tracks and next id after the first k observations. */
  function IntegrateUpTo(tracks: seq<Track>, nextId: nat, pairs: seq<Pair>, obs: seq<Observation>, k: nat,
                         stamp: real, cycle: nat, c: Config, g: Geometry): (seq<Track>, nat)
    requires k <= |obs|
  {
    if k == 0 then (tracks, nextId)
    else
      var (ts, id) := IntegrateUpTo(tracks, nextId, pairs, obs, k - 1, stamp, cycle, c, g);
      (Integrate(ts, id, pairs, k - 1, obs[k - 1], stamp, cycle, c, g), NextId(id, pairs, k - 1))
  }

  // ---------------------------------------------------------------- the decision

  function Priority(code: nat): nat { if code == LEVEL1 then 2 else if code == LEVEL2 then 1 else 0 }

  predicate MoreDangerous(a: Track, b: Track) {
    var pa, pb := Priority(a.body.warningCode), Priority(b.body.warningCode);
    var ca, cb := a.body.clearance, b.body.clearance;
    if pa != pb then pa > pb
    else if ca.Some? != cb.Some? then ca.Some?
    else if ca.Some? && ca != cb then ca.value < cb.value
    else if a.body.distance != b.body.distance then a.body.distance < b.body.distance
    else a.id < b.id
  }

  predicate SupportMature(t: Track, c: Config) {
    t.body.support == Dense || t.sparse.frames >= c.confirmFrames
  }

  predicate OriginKnown(t: Track) {
    !t.current.embedded || t.streaks.separatedValid || t.fixed.provenanceValid
  }

  predicate FormalWarning(t: Track, policy: Policy, c: Config) {
    && SupportMature(t, c) && t.current.warningEligible && WarningCode(t.body.warningCode) && t.streaks.confirmed
    && (!c.requireFarHistory || t.far.valid || t.fixed.certified)
    && (!policy.requireLargeGeometry || t.streaks.geometry >= c.confirmFrames)
    && t.current.sourceValidated && OriginKnown(t)
    && (!policy.requireStaticCargo || t.fixed.isStatic)
  }

  predicate ReviewWarning(t: Track, c: Config) {
    && c.requireFarHistory && !t.far.valid && !t.fixed.certified
    && SupportMature(t, c) && t.current.observed && !t.association.ambiguous
    && t.current.warningEligible && WarningCode(t.body.warningCode) && t.current.sourceValidated
    && t.body.hazardGeometry && 0.0 <= t.body.distance <= c.level2Distance
    && t.body.clearance.Some? && t.body.clearance.value < MINIMUM_VERTICAL_CLEARANCE
    && OriginKnown(t)
  }

  /** Indices of the three candidates after the first k tracks; -1 for none. */
  datatype Choice = Choice(selected: int, review: int, candidate: int)

  function Better(tracks: seq<Track>, k: nat, current: int): bool
    requires k < |tracks| && current < |tracks|
  {
    current < 0 || MoreDangerous(tracks[k], tracks[current])
  }

  function Choose(tracks: seq<Track>, k: nat, policy: Policy, c: Config): (ch: Choice)
    requires k <= |tracks|
    ensures -1 <= ch.selected < k && -1 <= ch.review < k && -1 <= ch.candidate < k
    ensures ch.selected >= 0 ==> tracks[ch.selected].current.observed && FormalWarning(tracks[ch.selected], policy, c)
    ensures ch.review >= 0 ==> ReviewWarning(tracks[ch.review], c)
  {
    if k == 0 then Choice(-1, -1, -1)
    else
      var ch, t := Choose(tracks, k - 1, policy, c), tracks[k - 1];
      if !t.current.observed then ch
      else
        var candidate := if Better(tracks, k - 1, ch.candidate) then k - 1 else ch.candidate;
        if FormalWarning(t, policy, c) && Better(tracks, k - 1, ch.selected) then Choice(k - 1, ch.review, candidate)
        else if ReviewWarning(t, c) && Better(tracks, k - 1, ch.review) then Choice(ch.selected, k - 1, candidate)
        else Choice(ch.selected, ch.review, candidate)
  }

  function IdAt(tracks: seq<Track>, i: int): Option<nat>
    requires i < |tracks|
  {
    if i < 0 then None else Some(tracks[i].id)
  }

  predicate HazardObserved(obs: seq<Observation>) {
    exists o | o in obs :: o.warningEligible && WarningCode(o.warningCode)
  }

  function Decide(tracks: seq<Track>, obs: seq<Observation>, policy: Policy, c: Config): Decision {
    var ch := Choose(tracks, |tracks|, policy, c);
    var code := if ch.selected >= 0 then tracks[ch.selected].body.warningCode
                else if ch.review >= 0 then tracks[ch.review].body.warningCode else 0;
    Decision(true, HazardObserved(obs), IdAt(tracks, ch.selected),
             if ch.selected >= 0 then None else IdAt(tracks, ch.review), IdAt(tracks, ch.candidate), code)
  }

  // ---------------------------------------------------------------- one update

  function Purged(tracks: seq<Track>, stamp: real, c: Config): seq<Track> {
    if tracks == [] then []
    else
      var t := tracks[0];
      (if stamp - t.timing.lastStamp > c.staleTrack + STAMP_EPSILON then []
       else [t.(current := t.current.(observed := false, sparseToDense := false))]) + Purged(tracks[1..], stamp, c)
  }

  datatype Arrival = Unusable | Repeated | Restart | Regular

  function ArrivalOf(s: State, stamp: Option<real>, c: Config): Arrival {
    if !ValidConfig(c) || stamp.None? || stamp.value <= 0.0 then Unusable
    else if s.hasStamp && stamp.value + STAMP_EPSILON < s.lastStamp then Restart
    else if s.hasStamp && stamp.value <= s.lastStamp + STAMP_EPSILON then Repeated
    else Regular
  }

  predicate Opens(s: State, stamp: Option<real>, c: Config) {
    ArrivalOf(s, stamp, c).Restart? || ArrivalOf(s, stamp, c).Regular?
  }

  /** The state in which the observations are associated: new cycle, stale tracks gone, cycle flags cleared. */
  function Opened(s: State, stamp: Option<real>, c: Config): State
    requires Opens(s, stamp, c)
  {
    var base := if ArrivalOf(s, stamp, c).Restart? then INITIAL else s;
    State(Purged(base.tracks, stamp.value, c), base.nextId, base.cycle + 1, true, stamp.value)
  }

  /** Association, integration and decision on an opened state, for the canonical observations. */
  function Cycle(open: State, obs: seq<Observation>, policy: Policy, c: Config, g: Geometry): (State, Decision)
    requires ValidConfig(c)
  {
    var pairs := SortedPairs(obs, open.tracks, open.lastStamp, c, g);
    var (tracks, nextId) := IntegrateUpTo(open.tracks, open.nextId, pairs, obs, |obs|, open.lastStamp, open.cycle, c, g);
    (open.(tracks := tracks, nextId := nextId), Decide(tracks, obs, policy, c))
  }

  function StepOn(s: State, stamp: Option<real>, obs: seq<Observation>, policy: Policy, c: Config, g: Geometry): (State, Decision) {
    match ArrivalOf(s, stamp, c)
    case Unusable => (s, NO_DECISION)
    case Repeated => (s, NO_DECISION.(valid := true))
    case _ => Cycle(Opened(s, stamp, c), obs, policy, c, g)
  }

  function Step(s: State, f: Frame, c: Config, g: Geometry): (State, Decision) {
    StepOn(s, f.stamp, Canonical(f.observations, c), f.policy, c, g)
  }

  // ---------------------------------------------------------------- the object

  lemma {:induction false} PairsBounded(obs: seq<Observation>, tracks: seq<Track>, n: nat, stamp: real, c: Config, g: Geometry)
    requires n <= |obs| && ValidConfig(c)
    ensures Bounded(LegalPairs(obs, tracks, n, stamp, c, g), n, |tracks|)
  {
    if n > 0 {
      PairsBounded(obs, tracks, n - 1, stamp, c, g);
      RowBounded(obs, tracks, n - 1, |tracks|, stamp, c, g);
    }
  }

  lemma {:induction false} RowBounded(obs: seq<Observation>, tracks: seq<Track>, i: nat, m: nat, stamp: real, c: Config, g: Geometry)
    requires i < |obs| && m <= |tracks| && ValidConfig(c)
    ensures forall k :: 0 <= k < |LegalRow(obs, tracks, i, m, stamp, c, g)| ==>
              var p := LegalRow(obs, tracks, i, m, stamp, c, g)[k]; p.obs == i && p.track < m
  {
    if m > 0 { RowBounded(obs, tracks, i, m - 1, stamp, c, g); }
  }

  lemma SortedBounded(obs: seq<Observation>, tracks: seq<Track>, stamp: real, c: Config, g: Geometry)
    requires ValidConfig(c)
    ensures Bounded(SortedPairs(obs, tracks, stamp, c, g), |obs|, |tracks|)
  {
    var legal, sorted := LegalPairs(obs, tracks, |obs|, stamp, c, g), SortedPairs(obs, tracks, stamp, c, g);
    PairsBounded(obs, tracks, |obs|, stamp, c, g);
    Sorting.SameMembers(legal, sorted);
    forall i | 0 <= i < |sorted| ensures sorted[i].obs < |obs| && sorted[i].track < |tracks| {
      assert sorted[i] in legal;
    }
  }

  class Tracker {
    const config: Config
    const geometry: Geometry
    var tracks: seq<Track>
    var nextId: nat
    var cycle: nat
    var hasStamp: bool
    var lastStamp: real

    function Now(): State
      reads this
    {
      State(tracks, nextId, cycle, hasStamp, lastStamp)
    }

    constructor (config: Config, geometry: Geometry)
      ensures this.config == config && this.geometry == geometry && Now() == INITIAL
    {
      this.config, this.geometry := config, geometry;
      tracks, nextId, cycle, hasStamp, lastStamp := [], 1, 0, false, 0.0;
    }

    method Update(f: Frame) returns (d: Decision)
      modifies this
      ensures (Now(), d) == Step(old(Now()), f, config, geometry)
    {
      if !ValidConfig(config) || f.stamp.None? || f.stamp.value <= 0.0 {
        return NO_DECISION;
      }
      if hasStamp && lastStamp - STAMP_EPSILON <= f.stamp.value <= lastStamp + STAMP_EPSILON {
        return NO_DECISION.(valid := true);
      }
      OpenCycle(f);
      d := RunCycle(f);
    }

    method OpenCycle(f: Frame)
      requires Opens(Now(), f.stamp, config)
      modifies this
      ensures Now() == Opened(old(Now()), f.stamp, config)
    {
      var stamp := f.stamp.value;
      if hasStamp && stamp + STAMP_EPSILON < lastStamp {
        tracks, nextId, cycle, hasStamp, lastStamp := [], 1, 0, false, 0.0;
      }
      hasStamp, lastStamp, cycle := true, stamp, cycle + 1;
      DropStale(stamp);
    }

    method RunCycle(f: Frame) returns (d: Decision)
      requires ValidConfig(config)
      modifies this
      ensures (Now(), d) == Cycle(old(Now()), Canonical(f.observations, config), f.policy, config, geometry)
    {
      var kept := PrepareObservations(f.observations);
      var obs := Sorting.SortBy(CanonicalLess, kept);
      var pairs := CollectPairs(obs, lastStamp);
      SortedBounded(obs, tracks, lastStamp, config, geometry);
      pairs := Sorting.SortBy(PairLess(tracks), pairs);
      IntegrateAll(obs, pairs, lastStamp);
      d := Decide(tracks, obs, f.policy, config);
    }

    method PrepareObservations(observations: seq<Observation>) returns (kept: seq<Observation>)
      ensures kept == Prepared(observations, config)
    {
      kept := [];
      for k := 0 to |observations|
        invariant kept == Prepared(observations[..k], config)
      {
        var o := observations[k];
        assert observations[..k + 1][..k] == observations[..k];
        if ValidObservation(o, config) {
          kept := kept + [o.(cells := CanonicalCells(o.cells))];
        }
      }
      assert observations[..|observations|] == observations;
    }

    method DropStale(stamp: real)
      modifies this`tracks
      ensures tracks == Purged(old(tracks), stamp, config)
    {
      var kept: seq<Track> := [];
      for k := 0 to |tracks|
        invariant tracks == old(tracks)
        invariant kept + Purged(tracks[k..], stamp, config) == Purged(tracks, stamp, config)
      {
        var t := tracks[k];
        assert tracks[k..][1..] == tracks[k + 1..];
        if !(stamp - t.timing.lastStamp > config.staleTrack + STAMP_EPSILON) {
          kept := kept + [t.(current := t.current.(observed := false, sparseToDense := false))];
        }
      }
      tracks := kept;
    }

    method CollectPairs(obs: seq<Observation>, stamp: real) returns (pairs: seq<Pair>)
      requires ValidConfig(config)
      ensures pairs == LegalPairs(obs, tracks, |obs|, stamp, config, geometry)
    {
      pairs := [];
      for i := 0 to |obs|
        invariant pairs == LegalPairs(obs, tracks, i, stamp, config, geometry)
      {
        ghost var before := pairs;
        for j := 0 to |tracks|
          invariant pairs == before + LegalRow(obs, tracks, i, j, stamp, config, geometry)
        {
          var p := LegalPair(obs, tracks, i, j, stamp, config, geometry);
          if p.Some? { pairs := pairs + [p.value]; }
        }
      }
    }

    method IntegrateAll(obs: seq<Observation>, pairs: seq<Pair>, stamp: real)
      requires Bounded(pairs, |obs|, |tracks|)
      modifies this`tracks, this`nextId
      ensures (tracks, nextId) == IntegrateUpTo(old(tracks), old(nextId), pairs, obs, |obs|, stamp, cycle, config, geometry)
    {
      var ofObservation := TallySide(pairs, OfObservation, |obs|);
      var ofTrack := TallySide(pairs, OfTrack, |tracks|);
      var owner := Assign(pairs, |obs|, |tracks|);
      IntegrateOwned(obs, owner, ofObservation, ofTrack, pairs, stamp);
    }

    method IntegrateOwned(obs: seq<Observation>, owner: seq<int>, ofObservation: seq<Tally>, ofTrack: seq<Tally>, pairs: seq<Pair>, stamp: real)
      requires |owner| == |ofObservation| == |obs| && |ofTrack| == |tracks| && Bounded(pairs, |obs|, |tracks|)
      requires forall o :: 0 <= o < |obs| ==> owner[o] == TakenPair(pairs, o, |pairs|)
      requires Tallied(pairs, OfObservation, ofObservation) && Tallied(pairs, OfTrack, ofTrack)
      modifies this`tracks, this`nextId
      ensures (tracks, nextId) == IntegrateUpTo(old(tracks), old(nextId), pairs, obs, |obs|, stamp, cycle, config, geometry)
    {
      ghost var tracks0, id0 := tracks, nextId;
      for k := 0 to |obs|
        invariant (tracks, nextId) == IntegrateUpTo(tracks0, id0, pairs, obs, k, stamp, cycle, config, geometry)
      {
        IntegrateOne(obs[k], k, owner[k], ofObservation, ofTrack, pairs, stamp);
      }
    }

    /** i: the pair that took the observation, or -1. */
    method IntegrateOne(o: Observation, k: nat, i: int, ofObservation: seq<Tally>, ofTrack: seq<Tally>, pairs: seq<Pair>, stamp: real)
      requires i == TakenPair(pairs, k, |pairs|) && k < |ofObservation| && (i >= 0 ==> pairs[i].track < |ofTrack|)
      requires Tallied(pairs, OfObservation, ofObservation) && Tallied(pairs, OfTrack, ofTrack)
      modifies this`tracks, this`nextId
      ensures tracks == Integrate(old(tracks), old(nextId), pairs, k, o, stamp, cycle, config, geometry)
      ensures nextId == NextId(old(nextId), pairs, k)
    {
      if i == -1 {
        if ofObservation[k].count > 0 {
          ExposeAll(pairs, k, o);
        } else {
          tracks := tracks + [NewTrackFrom(nextId, o, stamp, cycle, tracks == [], config)];
          nextId := nextId + 1;
        }
      } else {
        var j := pairs[i].track;
        var unique := TestUnique(pairs, i, ofObservation, ofTrack);
        if j < |tracks| {
          var t := tracks[j];
          var m := Metrics(pairs[i].overlap, pairs[i].iou, pairs[i].neighborOverlap,
                           CellOverlap(o.cells, t.body.anchorCells), pairs[i].cost);
          tracks := tracks[j := if unique then Advance(t, o, m, stamp, cycle, config, geometry) else Freeze(t, o, m)];
        }
      }
    }

    method ExposeAll(pairs: seq<Pair>, k: nat, o: Observation)
      modifies this`tracks
      ensures tracks == ExposeCompeting(old(tracks), pairs, k, o)
    {
      for q := 0 to |pairs|
        invariant tracks == ExposeCompeting(old(tracks), pairs[..q], k, o)
      {
        var p := pairs[q];
        assert pairs[..q + 1] == pairs[..q] + [p];
        if p.obs == k && p.track < |tracks| {
          tracks := tracks[p.track := Expose(tracks[p.track], o)];
        }
      }
      assert pairs[..|pairs|] == pairs;
    }
  }
}
