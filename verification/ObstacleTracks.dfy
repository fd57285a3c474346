/**
 Data of the obstacle tracker and what one observation does to one track. Distances, norms and the
 neighbouring-cell overlap are parameters: every result holds for any choice of them.
 */
module ObstacleTracks {
  import opened Prelude

  const STAMP_EPSILON: real := 0.0001
  const COST_EPSILON: real := 0.00001
  const MINIMUM_SPARSE_POINTS: nat := 5
  const SPARSE_RING_CAPACITY: nat := 3
  const MINIMUM_VERTICAL_CLEARANCE: real := 0.80
  const LEVEL1: nat := 17
  const LEVEL2: nat := 18
  const CLEAR: nat := 14

  datatype Vec3 = Vec3(x: real, y: real, z: real)
  datatype Vec2 = Vec2(x: real, y: real)

  datatype Provenance = NoProvenance | OutsideCargoShellOnly | PreCargoOccupancy | StaticMapMatch
                      | CargoMovedAwayPersistence | DualLidarConsensus

  datatype SupportKind = Dense | Sparse

  datatype ResetReason = NoReason | NewTrack | AssociationReset | AmbiguousFrozen | CrossAuthorityReset

  /** Euclidean distances and the radius-limited cell overlap, kept abstract. */
  datatype Geometry = Geometry(
    planarDistance: (Vec3, Vec3) -> real,
    planarSpeed: Vec3 -> real,
    cargoDistance: (Vec2, Vec2) -> real,
    neighborOverlap: (seq<int>, seq<int>) -> real)

  datatype Config = Config(
    confirmFrames: nat,
    minimumPoints: nat,
    level1Distance: real,
    level2Distance: real,
    acquisitionDistance: real,
    requireFarHistory: bool,
    farConfirmFrames: nat,
    farConfirmDuration: real,
    embeddedDistance: real,
    maximumGap: real,
    staleTrack: real,
    maximumCentroidDistance: real,
    maximumTopStep: real,
    cellOverlapMin: real,
    iouMin: real,
    minCargoMotion: real,
    staticMinPoints: nat,
    staticMinRawPoints: nat,
    staticMinArea: real,
    staticMinLongSide: real,
    staticMinHeightSpan: real,
    staticMinCells: nat,
    knownStaticConfirmFrames: nat,
    staticConfirmFrames: nat,
    staticConfirmSec: real,
    staticVelocity: real)

  predicate ValidConfig(c: Config) {
    && c.confirmFrames >= 2 && c.minimumPoints > 0 && c.farConfirmFrames >= 2 && c.farConfirmDuration >= 0.0
    && 0.0 < c.level1Distance < c.level2Distance < c.acquisitionDistance
    && 0.0 <= c.embeddedDistance < c.level1Distance
    && 0.0 < c.maximumGap <= c.staleTrack
    && c.maximumCentroidDistance > 0.0 && c.maximumTopStep > 0.0
    && 0.0 < c.cellOverlapMin <= 1.0 && 0.0 < c.iouMin <= 1.0
    && c.minCargoMotion >= 0.0 && c.staticMinPoints >= c.minimumPoints
    && c.staticMinArea > 0.0 && c.staticMinLongSide > 0.0 && c.staticMinHeightSpan > 0.0 && c.staticMinCells > 0
    && c.knownStaticConfirmFrames >= c.confirmFrames && c.staticConfirmFrames >= c.confirmFrames
    && c.staticConfirmSec >= 0.0 && c.staticVelocity >= 0.0
  }

  /** clearance and cargoCenter are None when not finite or not valid. */
  datatype Observation = Observation(
    sourceIndex: nat,
    centroid: Vec3,
    top: real,
    bottom: real,
    continuity: real,
    entirelyAbove: bool,
    distance: real,
    clearance: Option<real>,
    hazardGeometry: bool,
    uncertainty: real,
    pointCount: nat,
    rawPointCount: nat,
    area: real,
    longSide: real,
    heightSpan: real,
    occupiedCells: nat,
    cells: seq<int>,
    cargoCenter: Option<Vec2>,
    warningCode: nat,
    warningEligible: bool,
    sourceValidated: bool,
    provenance: Provenance,
    authority: Authority,
    certifiedStatic: bool)

  /** The physical predictor. */
  datatype Body = Body(
    centroid: Vec3, velocity: Vec3, top: real, bottom: real, continuity: real, entirelyAbove: bool,
    distance: real, clearance: Option<real>, hazardGeometry: bool, pointCount: nat, warningCode: nat,
    cells: seq<int>, anchorCells: seq<int>, support: SupportKind)

  datatype Timing = Timing(firstStamp: real, lastStamp: real, lastCycle: nat)

  datatype Streaks = Streaks(
    total: nat, validated: nat, geometry: nat, confirmed: bool, separated: nat, separatedValid: bool)

  datatype FarHistory = FarHistory(count: nat, firstStamp: real, duration: real, valid: bool)

  datatype StaticEvidence = StaticEvidence(
    provenance: Provenance, provenanceValid: bool, certified: bool, streak: nat, firstStamp: real,
    isStatic: bool, largeGeometry: bool, firstCargoCenter: Option<Vec2>, maxDisplacement: real)

  datatype SparseFrame = SparseFrame(stamp: real, cells: seq<int>)

  datatype SparseSupport = SparseSupport(ring: seq<SparseFrame>, frames: nat)

  /** What the current cycle saw. */
  datatype Current = Current(
    observed: bool, sourceIndex: nat, sourceValidated: bool, warningEligible: bool,
    embedded: bool, nearField: bool, sparseToDense: bool)

  datatype Metrics = Metrics(overlap: real, iou: real, neighborOverlap: real, anchorOverlap: real, cost: real)

  datatype Association = Association(ambiguous: bool, reason: ResetReason, metrics: Metrics)

  datatype Track = Track(
    id: nat, body: Body, timing: Timing, streaks: Streaks, far: FarHistory, fixed: StaticEvidence,
    sparse: SparseSupport, authority: Authority, current: Current, association: Association)

  predicate WarningCode(code: nat) { code == LEVEL1 || code == LEVEL2 }

  predicate AuthorizesStatic(p: Provenance) {
    p == PreCargoOccupancy || p == StaticMapMatch || p == CargoMovedAwayPersistence || p == DualLidarConsensus
  }

  predicate QualifiesForFar(o: Observation, c: Config) {
    && o.sourceValidated && o.uncertainty >= 0.0
    && o.distance - o.uncertainty > c.level2Distance
    && o.distance <= c.acquisitionDistance
  }

  predicate DecisionCodeValid(o: Observation, c: Config) {
    if !o.hazardGeometry then
      !o.warningEligible && o.warningCode == CLEAR && o.distance <= c.acquisitionDistance
    else if o.warningEligible then
      if o.warningCode == LEVEL1 then o.distance <= c.level1Distance
      else o.warningCode == LEVEL2 && c.level1Distance < o.distance <= c.level2Distance
    else
      o.warningCode == CLEAR && c.level2Distance < o.distance <= c.acquisitionDistance
  }

  predicate ValidObservation(o: Observation, c: Config) {
    && o.top >= o.bottom
    && 0.0 <= o.continuity <= 1.0
    && (!o.warningEligible || !o.entirelyAbove)
    && o.distance >= 0.0
    && (!o.hazardGeometry || o.clearance.Some?)
    && o.uncertainty >= 0.0
    && o.pointCount >= MINIMUM_SPARSE_POINTS
    && DecisionCodeValid(o, c)
  }

  predicate SparseObservation(o: Observation, c: Config) {
    MINIMUM_SPARSE_POINTS <= o.pointCount < c.minimumPoints
  }

  predicate LargeGeometry(o: Observation, c: Config) {
    && o.pointCount >= c.staticMinPoints
    && (c.staticMinRawPoints == 0 || o.rawPointCount >= c.staticMinRawPoints)
    && o.area >= c.staticMinArea && o.longSide >= c.staticMinLongSide && o.heightSpan >= c.staticMinHeightSpan
    && o.occupiedCells >= c.staticMinCells
  }

  // ---------------------------------------------------------------- cell overlap

  function CellSet(cells: seq<int>): set<int> { set x | x in cells }

  function Shared(left: seq<int>, right: seq<int>): nat { |CellSet(left) * CellSet(right)| }

  function CellOverlap(left: seq<int>, right: seq<int>): real {
    var least := if |left| < |right| then |left| else |right|;
    if least == 0 then 0.0 else Shared(left, right) as real / least as real
  }

  function CellIou(left: seq<int>, right: seq<int>): real {
    var all := |left| + |right| - Shared(left, right);
    if all == 0 then 0.0 else Shared(left, right) as real / all as real
  }

  // ---------------------------------------------------------------- one track, one observation

  function AppendSparse(s: SparseSupport, o: Observation, stamp: real, consecutive: bool): SparseSupport {
    var kept := if consecutive then s else SparseSupport([], 0);
    var cells := if |o.cells| > o.pointCount then o.cells[..o.pointCount] else o.cells;
    var ring := kept.ring + [SparseFrame(stamp, cells)];
    SparseSupport(if |ring| > SPARSE_RING_CAPACITY then ring[1..] else ring, if consecutive then kept.frames + 1 else 1)
  }

  function EligibleForWarning(o: Observation): bool {
    o.hazardGeometry && o.warningEligible && WarningCode(o.warningCode)
  }

  function NewTrackFrom(id: nat, o: Observation, stamp: real, cycle: nat, first: bool, c: Config): Track {
    var support := if SparseObservation(o, c) then Sparse else Dense;
    var large := LargeGeometry(o, c);
    var provenanceValid := AuthorizesStatic(o.provenance);
    var embedded := o.distance < c.embeddedDistance;
    var separated := if o.sourceValidated && !embedded then 1 else 0;
    var far := if QualifiesForFar(o, c) then 1 else 0;
    var fixed := if o.sourceValidated && large && provenanceValid then 1 else 0;
    Track(
      id,
      Body(o.centroid, Vec3(0.0, 0.0, 0.0), o.top, o.bottom, o.continuity, o.entirelyAbove, o.distance, o.clearance,
           o.hazardGeometry, o.pointCount, o.warningCode, o.cells, o.cells, support),
      Timing(stamp, stamp, cycle),
      Streaks(1, if o.sourceValidated then 1 else 0, if o.sourceValidated && large then 1 else 0, false,
              separated, separated >= c.confirmFrames),
      FarHistory(far, if far == 1 then stamp else 0.0, 0.0,
                 far >= c.farConfirmFrames && c.farConfirmDuration <= STAMP_EPSILON),
      StaticEvidence(o.provenance, provenanceValid, o.certifiedStatic, fixed, if fixed > 0 then stamp else 0.0,
                     false, large, o.cargoCenter, 0.0),
      if support == Sparse then AppendSparse(SparseSupport([], 0), o, stamp, false) else SparseSupport([], 0),
      o.authority,
      Current(true, o.sourceIndex, o.sourceValidated, EligibleForWarning(o), embedded, o.distance <= c.level1Distance, false),
      Association(false, if first then NewTrack else AssociationReset, Metrics(0.0, 0.0, 0.0, 0.0, 0.0)))
  }

  /** Temporal evidence belongs to the pose authority that produced it: restart all of it. */
  function ResetEvidence(t: Track, o: Observation, stamp: real): Track {
    t.(body := t.body.(velocity := Vec3(0.0, 0.0, 0.0), anchorCells := o.cells),
       timing := t.timing.(firstStamp := stamp),
       streaks := Streaks(0, 0, 0, false, 0, false),
       far := FarHistory(0, 0.0, 0.0, false),
       fixed := StaticEvidence(NoProvenance, false, false, 0, 0.0, false, false, o.cargoCenter, 0.0),
       sparse := SparseSupport([], 0),
       current := t.current.(sparseToDense := false),
       association := t.association.(reason := CrossAuthorityReset))
  }

  function Consecutive(t: Track, o: Observation, stamp: real, cycle: nat, c: Config): bool {
    && SameAuthority(o.authority, t.authority)
    && t.timing.lastCycle + 1 == cycle
    && stamp - t.timing.lastStamp <= c.maximumGap + STAMP_EPSILON
  }

  function AdvanceBody(t: Track, b: Body, o: Observation, stamp: real, c: Config): Body {
    var dt := stamp - t.timing.lastStamp;
    var velocity :=
      if SameAuthority(o.authority, t.authority) && dt > STAMP_EPSILON then
        Vec3((o.centroid.x - t.body.centroid.x) / dt, (o.centroid.y - t.body.centroid.y) / dt, (o.centroid.z - t.body.centroid.z) / dt)
      else b.velocity;
    Body(o.centroid, velocity, o.top, o.bottom, o.continuity, o.entirelyAbove, o.distance, o.clearance, o.hazardGeometry,
         o.pointCount, o.warningCode, o.cells, b.anchorCells, if SparseObservation(o, c) then Sparse else Dense)
  }

  function AdvanceStreaks(s: Streaks, o: Observation, consecutive: bool, c: Config): Streaks {
    var validated := if !o.sourceValidated then 0 else if consecutive then s.validated + 1 else 1;
    var geometry := if !(o.sourceValidated && LargeGeometry(o, c)) then 0 else if consecutive then s.geometry + 1 else 1;
    var embedded := o.distance < c.embeddedDistance;
    var separated :=
      if o.sourceValidated && !embedded then if consecutive then s.separated + 1 else 1
      else if !embedded then 0
      else s.separated;
    Streaks(if consecutive then s.total + 1 else 1, validated, geometry, validated >= c.confirmFrames, separated,
            s.separatedValid || (o.sourceValidated && !embedded && separated >= c.confirmFrames))
  }

  /** The far streak grows only over consecutive qualifying observations, until it is complete. */
  function AdvanceFar(far: FarHistory, o: Observation, stamp: real, consecutive: bool, c: Config): FarHistory {
    if far.valid then far
    else if !QualifiesForFar(o, c) then FarHistory(0, 0.0, 0.0, false)
    else
      var restart := !consecutive || far.count == 0;
      var count := if restart then 1 else far.count + 1;
      var first := if restart then stamp else far.firstStamp;
      var duration := Max(0.0, stamp - first);
      FarHistory(count, first, duration,
                 count >= c.farConfirmFrames && duration + STAMP_EPSILON >= c.farConfirmDuration)
  }

  function AdvanceStatic(s: StaticEvidence, o: Observation, speed: real, anchorOverlap: real, confirmed: bool,
                         stamp: real, consecutive: bool, c: Config, g: Geometry): StaticEvidence
  {
    var large := LargeGeometry(o, c);
    var first := if o.cargoCenter.Some? && s.firstCargoCenter.None? then o.cargoCenter else s.firstCargoCenter;
    var displacement :=
      if o.cargoCenter.Some? && first.Some? then Max(s.maxDisplacement, g.cargoDistance(o.cargoCenter.value, first.value))
      else s.maxDisplacement;
    var motionValid := speed <= c.staticVelocity || anchorOverlap >= 0.5;
    var provenance :=
      if AuthorizesStatic(o.provenance) then o.provenance
      else if !s.provenanceValid && o.sourceValidated && large && anchorOverlap >= c.cellOverlapMin
              && displacement >= c.minCargoMotion && motionValid then CargoMovedAwayPersistence
      else if !s.provenanceValid then o.provenance
      else s.provenance;
    var provenanceValid := AuthorizesStatic(provenance);
    var frame := o.sourceValidated && large && provenanceValid && motionValid;
    var restart := !consecutive || s.streak == 0;
    var streak := if !frame then 0 else if restart then 1 else s.streak + 1;
    var firstStamp := if !frame then 0.0 else if restart then stamp else s.firstStamp;
    var known := provenance == StaticMapMatch || provenance == PreCargoOccupancy;
    var isStatic := confirmed
      && streak >= (if known then c.knownStaticConfirmFrames else c.staticConfirmFrames)
      && firstStamp > 0.0
      && stamp - firstStamp + STAMP_EPSILON >= (if known then 0.0 else c.staticConfirmSec);
    StaticEvidence(provenance, provenanceValid, s.certified || o.certifiedStatic, streak, firstStamp, isStatic, large, first, displacement)
  }

  /** The pair metrics are recorded before authority is granted. */
  function Measured(t: Track, o: Observation, m: Metrics, reciprocal: bool): Track {
    t.(association := Association(!reciprocal, if SameAuthority(o.authority, t.authority) then NoReason else t.association.reason, m))
  }

  /** A reciprocal-unique observation advances the track, under its own authority. */
  function Advance(t: Track, o: Observation, m: Metrics, stamp: real, cycle: nat, c: Config, g: Geometry): Track {
    var consecutive := Consecutive(t, o, stamp, cycle, c);
    var measured := Measured(t, o, m, true);
    var base := if SameAuthority(o.authority, t.authority) then measured else ResetEvidence(measured, o, stamp);
    var body := AdvanceBody(t, base.body, o, stamp, c);
    var streaks := AdvanceStreaks(base.streaks, o, consecutive, c);
    var toDense := t.body.support == Sparse && body.support == Dense;
    Track(
      t.id, body, Timing(base.timing.firstStamp, stamp, cycle), streaks,
      AdvanceFar(base.far, o, stamp, consecutive, c),
      AdvanceStatic(base.fixed, o, g.planarSpeed(body.velocity), m.anchorOverlap, streaks.confirmed, stamp, consecutive, c, g),
      if body.support == Sparse then AppendSparse(base.sparse, o, stamp, consecutive && t.body.support == Sparse) else base.sparse,
      o.authority,
      Current(true, o.sourceIndex, o.sourceValidated, EligibleForWarning(o), o.distance < c.embeddedDistance,
              o.distance <= c.level1Distance, toDense),
      base.association)
  }

  /** An ambiguous observation is exposed this cycle but advances nothing and authorises nothing. */
  function Expose(t: Track, o: Observation): Track {
    t.(current := t.current.(observed := true, sourceIndex := o.sourceIndex, sourceValidated := false, warningEligible := false),
       association := t.association.(ambiguous := true, reason := AmbiguousFrozen))
  }

  function Freeze(t: Track, o: Observation, m: Metrics): Track { Expose(Measured(t, o, m, false), o) }

  /** Everything a later cycle relies on is as before: predictor, stamps, streaks, provenance, far history, authority. */
  ghost predicate SameEvidence(t: Track, u: Track) {
    && u.id == t.id && u.body == t.body && u.timing == t.timing && u.streaks == t.streaks && u.far == t.far
    && u.fixed == t.fixed && u.sparse == t.sparse && u.authority == t.authority
  }

  // ---------------------------------------------------------------- counting shared cells by merging

  ghost predicate Ascending(s: seq<int>) {
    forall i, j :: 0 <= i < j < |s| ==> s[i] < s[j]
  }

  /** Cells before i and j are merged: counted, and below everything still to come on the other side. */
  ghost predicate Merged(left: seq<int>, right: seq<int>, i: nat, j: nat, count: nat) {
    && i <= |left| && j <= |right| && count == Shared(left[..i], right[..j])
    && (i < |left| ==> forall k :: 0 <= k < j ==> right[k] < left[i])
    && (j < |right| ==> forall k :: 0 <= k < i ==> left[k] < right[j])
  }

  /** On sorted, duplicate-free lists the merge loop counts the common cells. */
  method CellIntersectionCount(left: seq<int>, right: seq<int>) returns (count: nat)
    requires Ascending(left) && Ascending(right)
    ensures count == Shared(left, right)
  {
    count := 0;
    var i: nat, j: nat := 0, 0;
    while i < |left| && j < |right|
      invariant Merged(left, right, i, j, count)
      decreases |left| + |right| - i - j
    {
      if left[i] < right[j] {
        MergeLeft(left, right, i, j, count);
        i := i + 1;
      } else if right[j] < left[i] {
        MergeSymmetric(left, right, i, j, count);
        MergeLeft(right, left, j, i, count);
        j := j + 1;
        MergeSymmetric(right, left, j, i, count);
      } else {
        MergeBoth(left, right, i, j, count);
        count := count + 1;
        i, j := i + 1, j + 1;
      }
    }
    MergeDone(left, right, i, j, count);
  }

  lemma MergeSymmetric(left: seq<int>, right: seq<int>, i: nat, j: nat, count: nat)
    requires Merged(left, right, i, j, count)
    ensures Merged(right, left, j, i, count)
  {
    assert CellSet(left[..i]) * CellSet(right[..j]) == CellSet(right[..j]) * CellSet(left[..i]);
  }

  lemma MergeLeft(left: seq<int>, right: seq<int>, i: nat, j: nat, count: nat)
    requires Ascending(left) && Merged(left, right, i, j, count) && i < |left| && j < |right| && left[i] < right[j]
    ensures Merged(left, right, i + 1, j, count)
  {
    OneMoreCell(left, i);
    assert left[i] !in CellSet(right[..j]);
    assert (CellSet(left[..i]) + {left[i]}) * CellSet(right[..j]) == CellSet(left[..i]) * CellSet(right[..j]);
  }

  lemma MergeBoth(left: seq<int>, right: seq<int>, i: nat, j: nat, count: nat)
    requires Ascending(left) && Ascending(right) && Merged(left, right, i, j, count)
    requires i < |left| && j < |right| && left[i] == right[j]
    ensures Merged(left, right, i + 1, j + 1, count + 1)
  {
    var x := left[i];
    OneMoreCell(left, i);
    OneMoreCell(right, j);
    AddCommon(CellSet(left[..i]), CellSet(right[..j]), x);
  }

  lemma OneMoreCell(s: seq<int>, i: nat)
    requires Ascending(s) && i < |s|
    ensures CellSet(s[..i + 1]) == CellSet(s[..i]) + {s[i]} && s[i] !in CellSet(s[..i])
  {
    assert s[..i + 1] == s[..i] + [s[i]];
  }

  lemma AddCommon(a: set<int>, b: set<int>, x: int)
    requires x !in a && x !in b
    ensures |(a + {x}) * (b + {x})| == |a * b| + 1
  {
    assert (a + {x}) * (b + {x}) == a * b + {x};
  }

  lemma MergeDone(left: seq<int>, right: seq<int>, i: nat, j: nat, count: nat)
    requires Ascending(left) && Ascending(right) && Merged(left, right, i, j, count) && (i == |left| || j == |right|)
    ensures count == Shared(left, right)
  {
    forall x | x in CellSet(left) && x in CellSet(right)
      ensures x in CellSet(left[..i]) && x in CellSet(right[..j])
    {
      var a :| 0 <= a < |left| && left[a] == x;
      var b :| 0 <= b < |right| && right[b] == x;
      assert a < i;
      assert b < j;
      assert left[..i][a] == x && right[..j][b] == x;
    }
    assert CellSet(left[..i]) * CellSet(right[..j]) == CellSet(left) * CellSet(right);
  }
}
