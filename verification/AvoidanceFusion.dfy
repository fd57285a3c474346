/**
 Fusion of the live and the static obstacle risk into one official avoidance code: which hazard carries
 a warning or a review, and when CLEAR may be said.
 */
module AvoidanceFusion {
  import opened Prelude

  const CLEAR := 14
  const NEAR_3M := 17
  const NEAR_5M := 18
  const ANOMALY_REVIEW := 29
  const LOCALIZATION_INVALID := 31
  const CARGO_INVALID := 33
  const OBSTACLE_INVALID := 34
  const MINIMUM_CLEARANCE: real := 0.80
  const REVIEW_REACH: real := 5.0

  /** distance and clearance are None when they are not finite; id stands for the identity record of the obstacle. */
  datatype Risk = Risk(
    available: bool,
    reliable: bool,
    hazard: bool,
    code: int,
    distance: Option<real>,
    clearance: Option<real>,
    coverage: real,
    certified: bool,
    id: nat)

  datatype Source = Live | StaticMap

  datatype Hazard = Hazard(source: Source, code: int, distance: real, clearance: real, id: nat)

  datatype Policy = Disabled | EvidenceBackedOnly | LegacyAnyPending

  datatype StaticAuthority = UnverifiedLoadedClean | RuntimeMature | OperatorApprovedBaseline

  datatype Config = Config(minimumCoverage: real, policy: Policy, minimumConfirmations: int, minimumConfidence: real, allowStaticPending: bool)

  /** What the pending envelope brings along; confidences are None when they are not finite. */
  datatype Pending = Pending(
    envelopeValid: bool,
    stateAllows: bool,
    posePlausible: bool,
    queryAllowed: bool,
    envelopeCarriesIdentity: bool,
    poseCarriesIdentity: bool,
    selfEvidence: bool,
    confidence: Option<real>,
    separation: bool,
    externalAuthorized: bool,
    externalTrack: nat,
    externalConfirmations: int,
    externalProvenance: bool,
    externalGeometry: bool,
    staticAuthorized: bool,
    staticId: nat,
    staticConfirmations: int,
    staticProvenance: bool,
    staticConfidence: Option<real>)

  datatype Review = Review(candidate: bool, live: bool, fromMap: bool, distance: Option<real>, clearance: Option<real>)

  datatype Input = Input(
    localizationValid: bool,
    liveHistory: bool,
    staticHistory: bool,
    staticTrackConfirmed: bool,
    review: Review,
    candidatePresent: bool,
    candidateCode: int,
    geometryValid: bool,
    bottomValid: bool,
    clearAuthorized: bool,
    pending: Pending,
    originResolved: bool,
    sessionValid: bool,
    riskContract: bool,
    authority: StaticAuthority,
    live: Risk,
    fromMap: Risk)

  datatype Authority = NoAuthority | PositiveOnly | Formal

  datatype Result = Result(valid: bool, code: int, distance: Option<real>, clearance: Option<real>, hazard: Option<Hazard>, authority: Authority)

  predicate Warning(code: int) { code == NEAR_3M || code == NEAR_5M }

  predicate Low(clearance: Option<real>) { clearance.Some? && clearance.value < MINIMUM_CLEARANCE }

  /** An available, reliable, warning-coded hazard with low clearance. */
  predicate Reports(r: Risk) { r.available && r.reliable && r.hazard && Warning(r.code) && Low(r.clearance) }

  // ---------------------------------------------------------------- selecting the hazard

  /** The metrics of the risk can stand behind a warning. */
  predicate Selectable(r: Risk) {
    r.hazard && Warning(r.code) && r.distance.Some? && r.distance.value > 0.0 && Low(r.clearance)
  }

  function HazardOf(source: Source, r: Risk, code: int): Hazard
    requires Selectable(r)
  {
    Hazard(source, code, r.distance.value, r.clearance.value, r.id)
  }

  /** The more severe hazard wins; of equally severe ones the nearer. */
  function Consider(selected: Option<Hazard>, source: Source, r: Risk): Option<Hazard> {
    if !Selectable(r) then selected
    else if selected.None? || (r.code == NEAR_3M && selected.value.code != NEAR_3M)
            || (r.code == selected.value.code && r.distance.value < selected.value.distance)
    then Some(HazardOf(source, r, r.code))
    else selected
  }

  function SelectHazard(allowLive: bool, live: Risk, allowMap: bool, fromMap: Risk): Option<Hazard> {
    var first := if allowLive then Consider(None, Live, live) else None;
    if allowMap then Consider(first, StaticMap, fromMap) else first
  }

  function ConsiderReview(selected: Option<Hazard>, source: Source, r: Risk): Option<Hazard> {
    if !Selectable(r) || (selected.Some? && r.distance.value >= selected.value.distance) then selected
    else Some(HazardOf(source, r, ANOMALY_REVIEW))
  }

  function SelectReview(allowLive: bool, live: Risk, allowMap: bool, fromMap: Risk): Option<Hazard> {
    var first := if allowLive then ConsiderReview(None, Live, live) else None;
    if allowMap then ConsiderReview(first, StaticMap, fromMap) else first
  }

  predicate Ranks(a: int, b: int) { a == NEAR_3M || b == NEAR_5M }

  /** The selected hazard is an allowed selectable one, none allowed is more severe, none equally severe is nearer. */
  lemma SelectedIsWorst(allowLive: bool, live: Risk, allowMap: bool, fromMap: Risk)
    ensures var h := SelectHazard(allowLive, live, allowMap, fromMap);
            && (h.None? <==> !(allowLive && Selectable(live)) && !(allowMap && Selectable(fromMap)))
            && (h.Some? ==>
                  && (|| (allowLive && Selectable(live) && h.value == HazardOf(Live, live, live.code))
                      || (allowMap && Selectable(fromMap) && h.value == HazardOf(StaticMap, fromMap, fromMap.code)))
                  && (allowLive && Selectable(live) ==>
                        Ranks(h.value.code, live.code) && (live.code == h.value.code ==> h.value.distance <= live.distance.value))
                  && (allowMap && Selectable(fromMap) ==>
                        Ranks(h.value.code, fromMap.code) && (fromMap.code == h.value.code ==> h.value.distance <= fromMap.distance.value)))
  {}

  // ---------------------------------------------------------------- authorisation of pending warnings

  predicate PendingIdentity(i: Input, c: Config) {
    var p := i.pending;
    p.stateAllows && p.posePlausible && p.queryAllowed && c.policy != Disabled
    && p.envelopeCarriesIdentity && p.poseCarriesIdentity && p.selfEvidence
  }

  predicate Confident(c: Config, confidence: Option<real>) { confidence.Some? && confidence.value >= c.minimumConfidence }

  predicate AuthorizeLive(i: Input, c: Config) {
    var p := i.pending;
    && PendingIdentity(i, c)
    && p.separation && p.externalAuthorized && p.externalTrack != 0
    && p.externalConfirmations >= c.minimumConfirmations && p.externalProvenance
    && (c.policy == LegacyAnyPending || (p.externalGeometry && Confident(c, p.confidence)))
  }

  predicate AuthorizeStatic(i: Input, c: Config) {
    var p := i.pending;
    && c.allowStaticPending && PendingIdentity(i, c) && Confident(c, p.confidence)
    && p.staticAuthorized && p.staticId != 0 && p.staticConfirmations >= c.minimumConfirmations
    && p.staticProvenance && Confident(c, p.staticConfidence)
  }

  // ---------------------------------------------------------------- what the sources amount to

  predicate FormalCargo(i: Input) { i.geometryValid && i.bottomValid }

  predicate StaticContract(i: Input) { i.sessionValid && i.riskContract && i.authority != UnverifiedLoadedClean }

  predicate LiveReliable(i: Input) { i.live.available && i.live.reliable }

  predicate StaticReliable(i: Input) { StaticContract(i) && i.fromMap.available && i.fromMap.reliable && i.fromMap.certified }

  predicate EmbeddedUnresolved(i: Input) { LiveReliable(i) && i.live.hazard && Warning(i.live.code) && !i.originResolved }

  predicate RiskLive(i: Input) { i.originResolved && Reports(i.live) }

  predicate StaticObserved(i: Input) { StaticReliable(i) && Reports(i.fromMap) }

  predicate RiskStatic(i: Input) { StaticObserved(i) && i.staticTrackConfirmed }

  predicate LiveClear(i: Input, c: Config) {
    LiveReliable(i) && i.originResolved && !RiskLive(i) && i.live.coverage >= c.minimumCoverage
  }

  predicate LiveWithoutHistory(i: Input) { RiskLive(i) && !i.liveHistory }

  predicate StaticWithoutHistory(i: Input) { RiskStatic(i) && !i.staticHistory }

  predicate StaticProven(i: Input, c: Config) {
    StaticWithoutHistory(i) && (if FormalCargo(i) then StaticContract(i) && i.staticTrackConfirmed else AuthorizeStatic(i, c))
  }

  predicate LiveStandard(i: Input) { RiskLive(i) && i.liveHistory && !i.review.live }

  predicate StaticStandard(i: Input, c: Config) { RiskStatic(i) && (i.staticHistory || StaticProven(i, c)) }

  predicate StaticUnproven(i: Input, c: Config) { StaticWithoutHistory(i) && !StaticProven(i, c) }

  predicate ReviewGeometry(r: Review) { r.distance.Some? && r.distance.value <= REVIEW_REACH && Low(r.clearance) }

  // ---------------------------------------------------------------- the result

  function Nearer(x: Option<real>, y: Option<real>): Option<real> {
    if y.None? then x else if x.None? || y.value < x.value then y else x
  }

  /** The combined metrics of the reliable sources, before a hazard is chosen. */
  function Base(i: Input, code: int): Result {
    var fromLive := LiveReliable(i) && i.originResolved;
    var d := Nearer(if fromLive then i.live.distance else None, if StaticReliable(i) then i.fromMap.distance else None);
    var h := Nearer(if fromLive then i.live.clearance else None, if StaticReliable(i) then i.fromMap.clearance else None);
    Result(false, code, d, h, None, NoAuthority)
  }

  /** Code, distance and clearance are taken over from the hazard as one record; without one the code is 34. */
  function Carrying(base: Result, hazard: Option<Hazard>, authority: Authority): Result {
    if hazard.None? then base.(code := OBSTACLE_INVALID)
    else base.(valid := true, code := hazard.value.code, distance := Some(hazard.value.distance), clearance := Some(hazard.value.clearance),
               hazard := hazard, authority := authority)
  }

  function HistoryReview(i: Input, c: Config, base: Result): Result {
    Carrying(base, SelectReview(LiveWithoutHistory(i), i.live, StaticUnproven(i, c), i.fromMap), NoAuthority)
  }

  function FusePending(i: Input, c: Config): Result {
    var base := Base(i, CARGO_INVALID);
    var p := i.pending;
    if !p.envelopeValid || !p.stateAllows || !p.posePlausible || !p.queryAllowed then base
    else if EmbeddedUnresolved(i) && !RiskStatic(i) then base
    else if LiveStandard(i) || StaticStandard(i, c) then
      var live, fromMap := LiveStandard(i) && AuthorizeLive(i, c), StaticStandard(i, c) && AuthorizeStatic(i, c);
      if live || fromMap then Carrying(base, SelectHazard(live, i.live, fromMap, i.fromMap), PositiveOnly) else base
    else if LiveWithoutHistory(i) || StaticUnproven(i, c) then HistoryReview(i, c, base)
    else base
  }

  /** The last checks before CLEAR. */
  function FuseClear(i: Input, c: Config): Result {
    var base := Base(i, CARGO_INVALID);
    if EmbeddedUnresolved(i) then base.(code := OBSTACLE_INVALID)
    else if i.candidatePresent && Warning(i.candidateCode) then base.(code := OBSTACLE_INVALID)
    else if !i.clearAuthorized then base
    else if !LiveClear(i, c) then base.(code := OBSTACLE_INVALID)
    else if Reports(i.fromMap) && !RiskStatic(i) then base.(code := OBSTACLE_INVALID)
    else base.(valid := true, code := CLEAR)
  }

  function FuseFormal(i: Input, c: Config): Result {
    var base := Base(i, CARGO_INVALID);
    if LiveStandard(i) || StaticStandard(i, c) then
      Carrying(base, SelectHazard(LiveStandard(i), i.live, StaticStandard(i, c), i.fromMap), Formal)
    else if LiveWithoutHistory(i) || StaticUnproven(i, c) then HistoryReview(i, c, base)
    else if i.review.candidate && ReviewGeometry(i.review) then
      Carrying(base.(distance := i.review.distance, clearance := i.review.clearance),
               SelectReview(i.review.live, i.live, i.review.fromMap, i.fromMap), NoAuthority)
    else FuseClear(i, c)
  }

  function Fuse(i: Input, c: Config): Result {
    if !i.localizationValid then Result(false, LOCALIZATION_INVALID, None, None, None, NoAuthority)
    else if StaticObserved(i) && !i.staticTrackConfirmed && !RiskLive(i) && !i.candidatePresent then Base(i, OBSTACLE_INVALID)
    else if !FormalCargo(i) then FusePending(i, c)
    else FuseFormal(i, c)
  }

  // ---------------------------------------------------------------- the guarantees

  /** The result speaks with the voice of one valid hazard. */
  ghost predicate Backed(r: Result) {
    && r.valid && r.hazard.Some?
    && r.hazard.value.code == r.code
    && r.distance == Some(r.hazard.value.distance) && r.clearance == Some(r.hazard.value.clearance)
    && r.hazard.value.distance > 0.0 && r.hazard.value.clearance < MINIMUM_CLEARANCE
  }

  lemma SelectionsAreSound(allowLive: bool, live: Risk, allowMap: bool, fromMap: Risk)
    ensures var h := SelectHazard(allowLive, live, allowMap, fromMap);
            h.Some? ==> Warning(h.value.code) && h.value.distance > 0.0 && h.value.clearance < MINIMUM_CLEARANCE
    ensures var h := SelectReview(allowLive, live, allowMap, fromMap);
            h.Some? ==> h.value.code == ANOMALY_REVIEW && h.value.distance > 0.0 && h.value.clearance < MINIMUM_CLEARANCE
  {}

  lemma CarryingBacked(base: Result, hazard: Option<Hazard>, authority: Authority)
    requires hazard.Some? ==> hazard.value.distance > 0.0 && hazard.value.clearance < MINIMUM_CLEARANCE
    ensures Carrying(base, hazard, authority).code == OBSTACLE_INVALID || Backed(Carrying(base, hazard, authority))
  {}

  ghost predicate Safe(r: Result) {
    && (Warning(r.code) || r.code == ANOMALY_REVIEW ==> Backed(r))
    && r.code in {CLEAR, NEAR_3M, NEAR_5M, ANOMALY_REVIEW, LOCALIZATION_INVALID, CARGO_INVALID, OBSTACLE_INVALID}
    && (r.valid <==> Warning(r.code) || r.code == ANOMALY_REVIEW || r.code == CLEAR)
  }

  lemma CarryingSafe(base: Result, hazard: Option<Hazard>, authority: Authority)
    requires !base.valid
    requires hazard.Some? ==>
               && (Warning(hazard.value.code) || hazard.value.code == ANOMALY_REVIEW)
               && hazard.value.distance > 0.0 && hazard.value.clearance < MINIMUM_CLEARANCE
    ensures Safe(Carrying(base, hazard, authority)) && Carrying(base, hazard, authority).code != CLEAR
  {
    CarryingBacked(base, hazard, authority);
  }

  lemma PendingSafe(i: Input, c: Config)
    ensures Safe(FusePending(i, c)) && FusePending(i, c).code != CLEAR
  {
    var base := Base(i, CARGO_INVALID);
    var live, fromMap := LiveStandard(i) && AuthorizeLive(i, c), StaticStandard(i, c) && AuthorizeStatic(i, c);
    SelectionsAreSound(live, i.live, fromMap, i.fromMap);
    CarryingSafe(base, SelectHazard(live, i.live, fromMap, i.fromMap), PositiveOnly);
    SelectionsAreSound(LiveWithoutHistory(i), i.live, StaticUnproven(i, c), i.fromMap);
    CarryingSafe(base, SelectReview(LiveWithoutHistory(i), i.live, StaticUnproven(i, c), i.fromMap), NoAuthority);
  }

  lemma FormalSafe(i: Input, c: Config)
    ensures Safe(FuseFormal(i, c))
    ensures FuseFormal(i, c).code == CLEAR <==>
              && !(LiveStandard(i) || StaticStandard(i, c)) && !(LiveWithoutHistory(i) || StaticUnproven(i, c))
              && !(i.review.candidate && ReviewGeometry(i.review)) && FuseClear(i, c).code == CLEAR
  {
    var base := Base(i, CARGO_INVALID);
    SelectionsAreSound(LiveStandard(i), i.live, StaticStandard(i, c), i.fromMap);
    CarryingSafe(base, SelectHazard(LiveStandard(i), i.live, StaticStandard(i, c), i.fromMap), Formal);
    SelectionsAreSound(LiveWithoutHistory(i), i.live, StaticUnproven(i, c), i.fromMap);
    CarryingSafe(base, SelectReview(LiveWithoutHistory(i), i.live, StaticUnproven(i, c), i.fromMap), NoAuthority);
    SelectionsAreSound(i.review.live, i.live, i.review.fromMap, i.fromMap);
    CarryingSafe(base.(distance := i.review.distance, clearance := i.review.clearance),
                 SelectReview(i.review.live, i.live, i.review.fromMap, i.fromMap), NoAuthority);
  }

  /** Every 17, 18 and 29 carries one valid hazard of the same code, distance and clearance, near and low; only they and CLEAR are valid. */
  lemma OfficialCodesAreBacked(i: Input, c: Config)
    ensures Safe(Fuse(i, c))
  {
    PendingSafe(i, c);
    FormalSafe(i, c);
  }

  /** CLEAR is said only when neither source reports a hazard, whatever its history, authority or origin. */
  lemma ClearMeansNoReport(i: Input, c: Config)
    requires Fuse(i, c).code == CLEAR
    ensures !Reports(i.live) && !Reports(i.fromMap)
  {
    PendingSafe(i, c);
    FormalSafe(i, c);
  }

  /** Exactly when CLEAR is said. */
  lemma ClearExactly(i: Input, c: Config)
    ensures Fuse(i, c).code == CLEAR <==>
              && i.localizationValid && FormalCargo(i) && i.clearAuthorized
              && !Reports(i.live) && !Reports(i.fromMap)
              && LiveReliable(i) && i.originResolved && i.live.coverage >= c.minimumCoverage
              && !(i.review.candidate && ReviewGeometry(i.review))
              && !(i.candidatePresent && Warning(i.candidateCode))
  {
    PendingSafe(i, c);
    FormalSafe(i, c);
  }

  /** With formal cargo a standard risk with usable metrics is always a 17 or 18, never a review; the worst one speaks. */
  lemma StandardRiskWarns(i: Input, c: Config)
    requires i.localizationValid && FormalCargo(i)
    requires (LiveStandard(i) && Selectable(i.live)) || (StaticStandard(i, c) && Selectable(i.fromMap))
    ensures var r := Fuse(i, c);
            && Warning(r.code) && Backed(r) && r.authority == Formal
            && r.hazard == SelectHazard(LiveStandard(i), i.live, StaticStandard(i, c), i.fromMap)
  {
    SelectedIsWorst(LiveStandard(i), i.live, StaticStandard(i, c), i.fromMap);
    SelectionsAreSound(LiveStandard(i), i.live, StaticStandard(i, c), i.fromMap);
  }

  /** Without formal cargo a warning needs an authorised source, and its authority is positive-only. */
  lemma PendingWarningIsAuthorized(i: Input, c: Config)
    requires i.localizationValid && !FormalCargo(i) && Warning(Fuse(i, c).code)
    ensures Fuse(i, c).authority == PositiveOnly
    ensures Fuse(i, c).hazard.Some? &&
            match Fuse(i, c).hazard.value.source
            case Live => LiveStandard(i) && AuthorizeLive(i, c)
            case StaticMap => StaticStandard(i, c) && AuthorizeStatic(i, c)
  {
    var live, fromMap := LiveStandard(i) && AuthorizeLive(i, c), StaticStandard(i, c) && AuthorizeStatic(i, c);
    SelectedIsWorst(live, i.live, fromMap, i.fromMap);
    SelectionsAreSound(LiveWithoutHistory(i), i.live, StaticUnproven(i, c), i.fromMap);
  }

  // ---------------------------------------------------------------- the routine

  method ApplyHazard(before: Result, hazard: Option<Hazard>, authority: Authority) returns (r: Result)
    ensures r == Carrying(before, hazard, authority)
  {
    r := before.(hazard := hazard);
    if hazard.None? {
      return before.(code := OBSTACLE_INVALID);
    }
    r := r.(code := hazard.value.code, distance := Some(hazard.value.distance), clearance := Some(hazard.value.clearance));
    r := r.(valid := true, authority := authority);
  }

  method FillPending(i: Input, c: Config, before: Result) returns (r: Result)
    requires before == Base(i, CARGO_INVALID)
    ensures r == FusePending(i, c)
  {
    r := before;
    var p := i.pending;
    if !p.envelopeValid || !p.stateAllows || !p.posePlausible || !p.queryAllowed || (EmbeddedUnresolved(i) && !RiskStatic(i)) {
      return;
    }
    var liveStandard, staticStandard := LiveStandard(i), StaticStandard(i, c);
    if liveStandard || staticStandard {
      var live, fromMap := liveStandard && AuthorizeLive(i, c), staticStandard && AuthorizeStatic(i, c);
      if live || fromMap {
        r := ApplyHazard(r, SelectHazard(live, i.live, fromMap, i.fromMap), PositiveOnly);
      }
    } else if LiveWithoutHistory(i) || StaticUnproven(i, c) {
      r := ApplyHazard(r, SelectReview(LiveWithoutHistory(i), i.live, StaticUnproven(i, c), i.fromMap), NoAuthority);
    }
  }

  method FillFormal(i: Input, c: Config, before: Result) returns (r: Result)
    requires before == Base(i, CARGO_INVALID)
    ensures r == FuseFormal(i, c)
  {
    r := before;
    var liveStandard, staticStandard := LiveStandard(i), StaticStandard(i, c);
    if liveStandard || staticStandard {
      r := ApplyHazard(r, SelectHazard(liveStandard, i.live, staticStandard, i.fromMap), Formal);
    } else if LiveWithoutHistory(i) || StaticUnproven(i, c) {
      r := ApplyHazard(r, SelectReview(LiveWithoutHistory(i), i.live, StaticUnproven(i, c), i.fromMap), NoAuthority);
    } else if i.review.candidate && ReviewGeometry(i.review) {
      r := r.(distance := i.review.distance, clearance := i.review.clearance);
      r := ApplyHazard(r, SelectReview(i.review.live, i.live, i.review.fromMap, i.fromMap), NoAuthority);
    } else if EmbeddedUnresolved(i) || (i.candidatePresent && Warning(i.candidateCode)) {
      r := r.(code := OBSTACLE_INVALID);
    } else if i.clearAuthorized {
      var clear := LiveClear(i, c) && !(Reports(i.fromMap) && !RiskStatic(i));
      r := r.(valid := clear, code := if clear then CLEAR else OBSTACLE_INVALID);
    }
  }

  /** The local result is filled branch by branch. */
  method FuseCargoAvoidanceRisk(i: Input, c: Config) returns (r: Result)
    ensures r == Fuse(i, c)
    ensures Safe(r)
    ensures r.code == CLEAR ==> !Reports(i.live) && !Reports(i.fromMap)
  {
    OfficialCodesAreBacked(i, c);
    ClearExactly(i, c);
    r := Result(false, CARGO_INVALID, None, None, None, NoAuthority);
    if !i.localizationValid {
      return r.(code := LOCALIZATION_INVALID);
    }
    if LiveReliable(i) && i.originResolved {
      r := r.(distance := Nearer(r.distance, i.live.distance), clearance := Nearer(r.clearance, i.live.clearance));
    }
    if StaticReliable(i) {
      r := r.(distance := Nearer(r.distance, i.fromMap.distance), clearance := Nearer(r.clearance, i.fromMap.clearance));
    }
    if StaticObserved(i) && !i.staticTrackConfirmed && !RiskLive(i) && !i.candidatePresent {
      return r.(code := OBSTACLE_INVALID);
    }
    if FormalCargo(i) {
      r := FillFormal(i, c, r);
    } else {
      r := FillPending(i, c, r);
    }
  }
}
