/**
 What the log of a track shows: streaks are the longest unbroken ends of the log, marks are held from
 their entry on, and both end with the pose authority. The evidence of a track is exactly that.
 */
module TrackerEvidence {
  import opened Prelude
  import opened ObstacleTracks

  /** One observation that created a track or advanced it as its reciprocal-unique match. */
  datatype Accepted = Accepted(cycle: nat, stamp: real, obs: Observation)

  type Log = seq<Accepted>

  function Last(log: Log): Accepted
    requires log != []
  {
    log[|log| - 1]
  }

  function Front(log: Log): Log
    requires log != []
  {
    log[..|log| - 1]
  }

  predicate SamePose(a: Accepted, b: Accepted) { a.obs.authority.Some? && a.obs.authority == b.obs.authority }

  /** The next cycle, without a gap, under the same authority. */
  predicate Follows(a: Accepted, b: Accepted, c: Config) {
    b.cycle == a.cycle + 1 && b.stamp - a.stamp <= c.maximumGap + STAMP_EPSILON && SamePose(a, b)
  }

  /** The last entry continues the authority of the one before it. */
  predicate Continued(log: Log) { |log| > 1 && SamePose(log[|log| - 2], log[|log| - 1]) }

  predicate Linked(log: Log, c: Config) { |log| > 1 && Follows(log[|log| - 2], log[|log| - 1], c) }

  /** The position where the stretch of the current authority begins. */
  function Began(log: Log): (b: nat)
    requires log != []
    ensures b < |log|
    decreases |log|
  {
    if Continued(log) then Began(Front(log)) else |log| - 1
  }

  // ---------------------------------------------------------------- motion and provenance

  /** The cells at the beginning of the stretch. */
  function Anchor(log: Log): seq<int>
    requires log != []
  {
    log[Began(log)].obs.cells
  }

  function Velocity(log: Log): Vec3
    decreases |log|
  {
    if !Continued(log) then Vec3(0.0, 0.0, 0.0)
    else
      var a, b := log[|log| - 2], log[|log| - 1];
      var dt := b.stamp - a.stamp;
      if dt > STAMP_EPSILON then
        Vec3((b.obs.centroid.x - a.obs.centroid.x) / dt, (b.obs.centroid.y - a.obs.centroid.y) / dt, (b.obs.centroid.z - a.obs.centroid.z) / dt)
      else Velocity(Front(log))
  }

  /** Overlap with the anchor the track had when the last entry came. */
  function AnchorOverlap(log: Log): real
    requires |log| > 1
  {
    CellOverlap(Last(log).obs.cells, Anchor(Front(log)))
  }

  predicate AtRest(log: Log, c: Config, g: Geometry)
    requires |log| > 1
  {
    g.planarSpeed(Velocity(log)) <= c.staticVelocity || AnchorOverlap(log) >= 0.5
  }

  /** The first known cargo centre of the stretch. */
  function FirstCentre(log: Log): Option<Vec2>
    decreases |log|
  {
    if log == [] then None
    else if Continued(log) && FirstCentre(Front(log)).Some? then FirstCentre(Front(log))
    else Last(log).obs.cargoCenter
  }

  /** How far the cargo has been from there, not counting the entry that created the track. */
  function Travel(log: Log, g: Geometry): real
    decreases |log|
  {
    if |log| <= 1 then 0.0
    else
      var before := if Continued(log) then Travel(Front(log), g) else 0.0;
      var centre := Last(log).obs.cargoCenter;
      if centre.Some? && FirstCentre(log).Some? then Max(before, g.cargoDistance(centre.value, FirstCentre(log).value)) else before
  }

  /** Validated, and farther than the warning distance even when the uncertainty is taken off, but within the acquisition distance. */
  predicate FarSeen(o: Observation, c: Config) {
    o.sourceValidated && o.uncertainty >= 0.0 && o.distance > c.level2Distance + o.uncertainty && o.distance <= c.acquisitionDistance
  }

  /** Validated, and no measure of its size falls short of what static cargo needs. */
  predicate LargeSeen(o: Observation, c: Config) {
    && o.sourceValidated
    && !(o.pointCount < c.staticMinPoints || o.occupiedCells < c.staticMinCells || o.area < c.staticMinArea
         || o.longSide < c.staticMinLongSide || o.heightSpan < c.staticMinHeightSpan
         || (c.staticMinRawPoints != 0 && o.rawPointCount < c.staticMinRawPoints))
  }

  /** An origin that authorises static cargo. */
  predicate Trusted(p: Provenance) {
    match p
    case PreCargoOccupancy | StaticMapMatch | CargoMovedAwayPersistence | DualLidarConsensus => true
    case _ => false
  }

  /** An authorising provenance lasts; the cargo moving away from a resting large obstacle makes one. */
  function Origin(log: Log, c: Config, g: Geometry): Provenance
    requires log != []
    decreases |log|
  {
    var o := Last(log).obs;
    var before := if Continued(log) then Origin(Front(log), c, g) else NoProvenance;
    if Trusted(o.provenance) || |log| == 1 then o.provenance
    else if Trusted(before) then before
    else if LargeSeen(o, c) && AnchorOverlap(log) >= c.cellOverlapMin
            && Travel(log, g) >= c.minCargoMotion && AtRest(log, c, g) then CargoMovedAwayPersistence
    else o.provenance
  }

  // ---------------------------------------------------------------- streaks

  datatype Kind = Seen | Validated | Large | Far | SparseSeen | Static

  /** Whether the last entry counts towards a streak of this kind. */
  predicate Counts(kind: Kind, log: Log, c: Config, g: Geometry)
    requires log != []
  {
    var o := Last(log).obs;
    match kind
    case Seen => true
    case Validated => o.sourceValidated
    case Large => LargeSeen(o, c)
    case Far => FarSeen(o, c)
    case SparseSeen => 5 <= o.pointCount < c.minimumPoints
    case Static => LargeSeen(o, c) && Trusted(Origin(log, c, g)) && (|log| == 1 || AtRest(log, c, g))
  }

  /** The number of entries at the end that count, each following the one before it. */
  function Length(kind: Kind, log: Log, c: Config, g: Geometry): (n: nat)
    ensures n <= |log|
    decreases |log|
  {
    if log == [] || !Counts(kind, log, c, g) then 0
    else if Linked(log, c) then Length(kind, Front(log), c, g) + 1
    else 1
  }

  ghost predicate CountsAt(kind: Kind, log: Log, i: nat, c: Config, g: Geometry) {
    i < |log| && Counts(kind, log[..i + 1], c, g)
  }

  ghost predicate FollowsAt(log: Log, i: nat, c: Config) {
    0 < i < |log| && Follows(log[i - 1], log[i], c)
  }

  /** The last n entries all count, and each of them but the first follows the one before it. */
  ghost predicate Unbroken(kind: Kind, log: Log, n: nat, c: Config, g: Geometry) {
    && n <= |log|
    && (forall i: nat :: |log| - n <= i < |log| ==> CountsAt(kind, log, i, c, g))
    && (forall i: nat :: |log| - n < i < |log| ==> FollowsAt(log, i, c))
  }

  lemma UnbrokenFront(kind: Kind, log: Log, n: nat, c: Config, g: Geometry)
    requires log != [] && n > 0
    ensures Unbroken(kind, log, n, c, g) <==>
              Counts(kind, log, c, g) && Unbroken(kind, Front(log), n - 1, c, g) && (n > 1 ==> Linked(log, c))
  {
    var front := Front(log);
    assert log[..|log|] == log;
    if Unbroken(kind, log, n, c, g) {
      assert CountsAt(kind, log, |log| - 1, c, g);
      assert n > 1 ==> FollowsAt(log, |log| - 1, c);
      forall i: nat | |front| - (n - 1) <= i < |front| ensures CountsAt(kind, front, i, c, g) {
        assert CountsAt(kind, log, i, c, g) && front[..i + 1] == log[..i + 1];
      }
      forall i: nat | |front| - (n - 1) < i < |front| ensures FollowsAt(front, i, c) {
        assert FollowsAt(log, i, c);
      }
    }
    if Counts(kind, log, c, g) && Unbroken(kind, front, n - 1, c, g) && (n > 1 ==> Linked(log, c)) {
      forall i: nat | |log| - n <= i < |log| ensures CountsAt(kind, log, i, c, g) {
        assert i < |front| ==> CountsAt(kind, front, i, c, g) && front[..i + 1] == log[..i + 1];
      }
      forall i: nat | |log| - n < i < |log| ensures FollowsAt(log, i, c) {
        assert i < |front| ==> FollowsAt(front, i, c);
      }
    }
  }

  /** The length is that of the longest unbroken end: exactly the ends up to it are unbroken. */
  lemma {:induction false} LengthIsLongest(kind: Kind, log: Log, n: nat, c: Config, g: Geometry)
    ensures Unbroken(kind, log, n, c, g) <==> n <= Length(kind, log, c, g)
    decreases |log|
  {
    if 0 < n <= |log| {
      UnbrokenFront(kind, log, n, c, g);
      LengthIsLongest(kind, Front(log), n - 1, c, g);
    }
  }

  /** When the streak began. */
  function Since(kind: Kind, log: Log, c: Config, g: Geometry): real {
    var n := Length(kind, log, c, g);
    if n == 0 then 0.0 else log[|log| - n].stamp
  }

  /** Seen apart from the cargo: embedded entries are passed over, an unvalidated one apart from it ends the count. */
  function Apart(log: Log, c: Config): nat
    decreases |log|
  {
    if log == [] then 0
    else
      var o := Last(log).obs;
      if o.distance < c.embeddedDistance then if Continued(log) then Apart(Front(log), c) else 0
      else if !o.sourceValidated then 0
      else if Linked(log, c) then Apart(Front(log), c) + 1
      else 1
  }

  // ---------------------------------------------------------------- marks

  datatype Mark = Certificate | Separation | FarHistoryMark

  /** Whether the last entry makes the mark. */
  predicate Makes(mark: Mark, log: Log, c: Config, g: Geometry)
    requires log != []
  {
    var o := Last(log).obs;
    match mark
    case Certificate => o.certifiedStatic
    case Separation => o.sourceValidated && o.distance >= c.embeddedDistance && Apart(log, c) >= c.confirmFrames
    case FarHistoryMark =>
      && Length(Far, log, c, g) > 0 && Length(Far, log, c, g) >= c.farConfirmFrames
      && Last(log).stamp - Since(Far, log, c, g) + STAMP_EPSILON >= c.farConfirmDuration
  }

  ghost predicate MadeAt(mark: Mark, log: Log, n: nat, c: Config, g: Geometry) {
    0 < n <= |log| && Makes(mark, log[..n], c, g)
  }

  /** Some entry of the current authority's stretch made the mark. */
  ghost predicate Held(mark: Mark, log: Log, c: Config, g: Geometry) {
    log != [] && exists n: nat :: Began(log) < n <= |log| && MadeAt(mark, log, n, c, g)
  }

  lemma HeldNext(mark: Mark, log: Log, e: Accepted, c: Config, g: Geometry)
    ensures Held(mark, log + [e], c, g) <==> Makes(mark, log + [e], c, g) || (Continued(log + [e]) && Held(mark, log, c, g))
  {
    var all := log + [e];
    assert Front(all) == log && all[..|all|] == all;
    forall n: nat | 0 < n <= |log| ensures all[..n] == log[..n] && (MadeAt(mark, all, n, c, g) <==> MadeAt(mark, log, n, c, g)) {
      assert all[..n] == log[..n];
    }
    if Makes(mark, all, c, g) {
      assert MadeAt(mark, all, |all|, c, g);
    } else if Held(mark, all, c, g) {
      var n: nat :| Began(all) < n <= |all| && MadeAt(mark, all, n, c, g);
      assert n <= |log| && MadeAt(mark, log, n, c, g);
    }
    if Continued(all) && Held(mark, log, c, g) {
      var n: nat :| Began(log) < n <= |log| && MadeAt(mark, log, n, c, g);
      assert MadeAt(mark, all, n, c, g);
    }
  }

  // ---------------------------------------------------------------- the evidence of a track is what its log shows

  /** Enough frames over enough time at rest with an authorising provenance; a known one needs no time. */
  predicate ShowsStatic(log: Log, c: Config, g: Geometry)
    requires log != []
  {
    var known := Origin(log, c, g) == StaticMapMatch || Origin(log, c, g) == PreCargoOccupancy;
    && Length(Validated, log, c, g) >= c.confirmFrames
    && Length(Static, log, c, g) >= (if known then c.knownStaticConfirmFrames else c.staticConfirmFrames)
    && Since(Static, log, c, g) > 0.0
    && Last(log).stamp - Since(Static, log, c, g) + STAMP_EPSILON >= (if known then 0.0 else c.staticConfirmSec)
  }

  /** The track's predictor and current observation. */
  ghost predicate ShowsBody(t: Track, log: Log, c: Config)
    requires log != []
  {
    var o := Last(log).obs;
    && t.authority == o.authority && t.timing.lastStamp == Last(log).stamp && t.timing.lastCycle == Last(log).cycle
    && t.body.centroid == o.centroid && t.body.velocity == Velocity(log) && t.body.cells == o.cells && t.body.anchorCells == Anchor(log)
    && t.body.top == o.top && t.body.distance == o.distance && t.body.clearance == o.clearance
    && t.body.hazardGeometry == o.hazardGeometry && t.body.warningCode == o.warningCode && t.body.entirelyAbove == o.entirelyAbove
    && (t.body.support == Sparse <==> SparseObservation(o, c))
  }

  ghost predicate ShowsStreaks(s: Streaks, log: Log, c: Config, g: Geometry) {
    && s.total == Length(Seen, log, c, g) && s.validated == Length(Validated, log, c, g) && s.geometry == Length(Large, log, c, g)
    && (s.confirmed <==> Length(Validated, log, c, g) >= c.confirmFrames)
    && s.separated == Apart(log, c) && (s.separatedValid <==> Held(Separation, log, c, g))
  }

  ghost predicate ShowsFar(far: FarHistory, log: Log, c: Config, g: Geometry) {
    && (far.valid <==> Held(FarHistoryMark, log, c, g))
    && (!far.valid ==> far.count == Length(Far, log, c, g) && far.firstStamp == Since(Far, log, c, g))
  }

  ghost predicate ShowsFixed(s: StaticEvidence, log: Log, c: Config, g: Geometry)
    requires log != []
  {
    && s.provenance == Origin(log, c, g) && (s.provenanceValid <==> Trusted(Origin(log, c, g)))
    && (s.certified <==> Held(Certificate, log, c, g))
    && s.streak == Length(Static, log, c, g) && s.firstStamp == Since(Static, log, c, g)
    && (s.isStatic <==> ShowsStatic(log, c, g))
    && s.firstCargoCenter == FirstCentre(log) && s.maxDisplacement == Travel(log, g)
  }

  ghost predicate ShowsSparse(t: Track, log: Log, c: Config, g: Geometry) {
    t.body.support == Sparse ==> t.sparse.frames == Length(SparseSeen, log, c, g)
  }

  ghost predicate Shows(t: Track, log: Log, c: Config, g: Geometry) {
    && log != [] && ShowsBody(t, log, c) && ShowsStreaks(t.streaks, log, c, g) && ShowsFar(t.far, log, c, g)
    && ShowsFixed(t.fixed, log, c, g) && ShowsSparse(t, log, c, g)
  }

  lemma {:induction false} LengthNext(kind: Kind, log: Log, e: Accepted, c: Config, g: Geometry)
    ensures Length(kind, log + [e], c, g) ==
              if !Counts(kind, log + [e], c, g) then 0
              else if log != [] && Follows(Last(log), e, c) then Length(kind, log, c, g) + 1 else 1
    ensures Since(kind, log + [e], c, g) ==
              if !Counts(kind, log + [e], c, g) then 0.0
              else if log != [] && Follows(Last(log), e, c) && Length(kind, log, c, g) > 0 then Since(kind, log, c, g) else e.stamp
  {
    assert Front(log + [e]) == log;
  }

  /** The streaks before an observation, as its authority sees them. */
  function BaseStreaks(t: Track, same: bool): Streaks { if same then t.streaks else Streaks(0, 0, 0, false, 0, false) }

  lemma StreaksNext(s: Streaks, log: Log, e: Accepted, same: bool, c: Config, g: Geometry)
    requires ValidConfig(c) && log != [] && same == SamePose(Last(log), e)
    requires if same then ShowsStreaks(s, log, c, g) else s == Streaks(0, 0, 0, false, 0, false)
    ensures ShowsStreaks(AdvanceStreaks(s, e.obs, Follows(Last(log), e, c), c), log + [e], c, g)
  {
    var all := log + [e];
    assert Front(all) == log;
    LengthNext(Seen, log, e, c, g);
    LengthNext(Validated, log, e, c, g);
    LengthNext(Large, log, e, c, g);
    HeldNext(Separation, log, e, c, g);
  }

  /** Accepted stamps never decrease. */
  ghost predicate Timely(log: Log) { forall i, j :: 0 <= i < j < |log| ==> log[i].stamp <= log[j].stamp }

  lemma FarNext(far: FarHistory, log: Log, e: Accepted, same: bool, c: Config, g: Geometry)
    requires ValidConfig(c) && log != [] && same == SamePose(Last(log), e) && Timely(log + [e])
    requires if same then ShowsFar(far, log, c, g) else far == FarHistory(0, 0.0, 0.0, false)
    ensures ShowsFar(AdvanceFar(far, e.obs, e.stamp, Follows(Last(log), e, c), c), log + [e], c, g)
  {
    LengthNext(Far, log, e, c, g);
    HeldNext(FarHistoryMark, log, e, c, g);
    assert Front(log + [e]) == log;
    assert forall i :: 0 <= i < |log| ==> (log + [e])[i].stamp <= (log + [e])[|log|].stamp;
  }

  const NO_STATIC := StaticEvidence(NoProvenance, false, false, 0, 0.0, false, false, None, 0.0)

  /** What the advance makes of the velocity, the anchor and the cargo's travel. */
  lemma MotionNext(t: Track, log: Log, o: Observation, m: Metrics, stamp: real, cycle: nat, c: Config, g: Geometry)
    requires log != [] && ShowsBody(t, log, c)
    ensures var e := Accepted(cycle, stamp, o);
            ShowsBody(Advance(t, o, m, stamp, cycle, c, g), log + [e], c)
    ensures Consecutive(t, o, stamp, cycle, c) <==> Follows(Last(log), Accepted(cycle, stamp, o), c)
  {
    assert Front(log + [Accepted(cycle, stamp, o)]) == log;
  }

  lemma {:induction false} FixedNext(s: StaticEvidence, log: Log, e: Accepted, same: bool, c: Config, g: Geometry)
    requires ValidConfig(c) && log != [] && same == SamePose(Last(log), e)
    requires if same then ShowsFixed(s, log, c, g) else s == NO_STATIC.(firstCargoCenter := e.obs.cargoCenter)
    ensures var all := log + [e];
            ShowsFixed(AdvanceStatic(s, e.obs, g.planarSpeed(Velocity(all)), AnchorOverlap(all), Length(Validated, all, c, g) >= c.confirmFrames,
                                     e.stamp, Follows(Last(log), e, c), c, g), all, c, g)
  {
    var all := log + [e];
    assert Front(all) == log;
    LengthNext(Static, log, e, c, g);
    HeldNext(Certificate, log, e, c, g);
  }

  lemma AdvanceShowsStreaks(t: Track, log: Log, o: Observation, m: Metrics, stamp: real, cycle: nat, c: Config, g: Geometry)
    requires ValidConfig(c) && Shows(t, log, c, g) && Timely(log + [Accepted(cycle, stamp, o)])
    ensures var u, all := Advance(t, o, m, stamp, cycle, c, g), log + [Accepted(cycle, stamp, o)];
            ShowsStreaks(u.streaks, all, c, g) && ShowsFar(u.far, all, c, g)
  {
    var e := Accepted(cycle, stamp, o);
    var same := SameAuthority(o.authority, t.authority);
    MotionNext(t, log, o, m, stamp, cycle, c, g);
    StreaksNext(BaseStreaks(t, same), log, e, same, c, g);
    FarNext(if same then t.far else FarHistory(0, 0.0, 0.0, false), log, e, same, c, g);
  }

  lemma AdvanceShowsSparse(t: Track, log: Log, o: Observation, m: Metrics, stamp: real, cycle: nat, c: Config, g: Geometry)
    requires ValidConfig(c) && Shows(t, log, c, g)
    ensures ShowsSparse(Advance(t, o, m, stamp, cycle, c, g), log + [Accepted(cycle, stamp, o)], c, g)
  {
    MotionNext(t, log, o, m, stamp, cycle, c, g);
    LengthNext(SparseSeen, log, Accepted(cycle, stamp, o), c, g);
  }

  lemma AdvanceShowsFixed(t: Track, log: Log, o: Observation, m: Metrics, stamp: real, cycle: nat, c: Config, g: Geometry)
    requires ValidConfig(c) && Shows(t, log, c, g) && m.anchorOverlap == CellOverlap(o.cells, t.body.anchorCells)
    requires Timely(log + [Accepted(cycle, stamp, o)])
    ensures ShowsFixed(Advance(t, o, m, stamp, cycle, c, g).fixed, log + [Accepted(cycle, stamp, o)], c, g)
  {
    var e := Accepted(cycle, stamp, o);
    var same := SameAuthority(o.authority, t.authority);
    assert Front(log + [e]) == log;
    MotionNext(t, log, o, m, stamp, cycle, c, g);
    AdvanceShowsStreaks(t, log, o, m, stamp, cycle, c, g);
    FixedNext(if same then t.fixed else NO_STATIC.(firstCargoCenter := o.cargoCenter), log, e, same, c, g);
  }

  lemma AdvanceShows(t: Track, log: Log, o: Observation, m: Metrics, stamp: real, cycle: nat, c: Config, g: Geometry)
    requires ValidConfig(c) && Shows(t, log, c, g) && m.anchorOverlap == CellOverlap(o.cells, t.body.anchorCells)
    requires Timely(log + [Accepted(cycle, stamp, o)])
    ensures Shows(Advance(t, o, m, stamp, cycle, c, g), log + [Accepted(cycle, stamp, o)], c, g)
  {
    MotionNext(t, log, o, m, stamp, cycle, c, g);
    AdvanceShowsStreaks(t, log, o, m, stamp, cycle, c, g);
    AdvanceShowsFixed(t, log, o, m, stamp, cycle, c, g);
    AdvanceShowsSparse(t, log, o, m, stamp, cycle, c, g);
  }

  lemma CreatedShows(id: nat, o: Observation, stamp: real, cycle: nat, first: bool, c: Config, g: Geometry)
    requires ValidConfig(c)
    ensures Shows(NewTrackFrom(id, o, stamp, cycle, first, c), [Accepted(cycle, stamp, o)], c, g)
  {
    var log := [Accepted(cycle, stamp, o)];
    assert [] + log == log;
    HeldNext(Separation, [], log[0], c, g);
    HeldNext(FarHistoryMark, [], log[0], c, g);
    HeldNext(Certificate, [], log[0], c, g);
  }
}
