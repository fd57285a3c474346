/**
 Which official code the avoidance fusion answers, told from the input alone: whose warning or review it
 is, when neither is given, and which of the fail-safe codes stands in.
 */
module AvoidanceAnswers {
  import opened Prelude
  import opened AvoidanceFusion

  function RiskOf(i: Input, source: Source): Risk { if source == Live then i.live else i.fromMap }

  // ---------------------------------------------------------------- what a source is worth

  /** The source delivers a low warning hazard that can be relied on: of resolved origin, or of a certified and mature map. */
  predicate Audible(i: Input, source: Source) {
    var r := RiskOf(i, source);
    && r.available && r.reliable && r.hazard && Warning(r.code) && r.clearance.Some? && r.clearance.value < MINIMUM_CLEARANCE
    && match source
       case Live => i.originResolved
       case StaticMap => r.certified && i.sessionValid && i.riskContract && i.authority != UnverifiedLoadedClean
  }

  /** The pending envelope vouches for a warning of the source. */
  predicate Vouched(i: Input, c: Config, source: Source) {
    var p := i.pending;
    && c.policy != Disabled
    && p.stateAllows && p.posePlausible && p.queryAllowed
    && p.envelopeCarriesIdentity && p.poseCarriesIdentity && p.selfEvidence
    && match source
       case Live =>
         && p.separation && p.externalAuthorized && p.externalProvenance && p.externalTrack > 0
         && p.externalConfirmations >= c.minimumConfirmations
         && (c.policy == EvidenceBackedOnly ==>
               p.externalGeometry && p.confidence.Some? && p.confidence.value >= c.minimumConfidence)
       case StaticMap =>
         && c.allowStaticPending
         && p.staticAuthorized && p.staticProvenance && p.staticId > 0 && p.staticConfirmations >= c.minimumConfirmations
         && p.confidence.Some? && p.confidence.value >= c.minimumConfidence
         && p.staticConfidence.Some? && p.staticConfidence.value >= c.minimumConfidence
  }

  /** The hazard has a history, or is a confirmed one of the map that formal cargo or the envelope stands for. */
  predicate Established(i: Input, c: Config, source: Source) {
    && Audible(i, source)
    && match source
       case Live => i.liveHistory && !i.review.live
       case StaticMap => i.staticTrackConfirmed && (i.staticHistory || FormalCargo(i) || Vouched(i, c, StaticMap))
  }

  predicate Unestablished(i: Input, c: Config, source: Source) {
    && Audible(i, source)
    && match source
       case Live => !i.liveHistory
       case StaticMap => i.staticTrackConfirmed && !i.staticHistory && !FormalCargo(i) && !Vouched(i, c, StaticMap)
  }

  /** An unconfirmed hazard of the map is all there is. */
  predicate Unconfirmed(i: Input) {
    Audible(i, StaticMap) && !i.staticTrackConfirmed && !Audible(i, Live) && !i.candidatePresent
  }

  /** The reliable live risk warns of something whose origin is open, and no confirmed hazard of the map speaks beside it. */
  predicate Unresolved(i: Input) {
    && i.live.available && i.live.reliable && i.live.hazard && Warning(i.live.code) && !i.originResolved
    && !(Audible(i, StaticMap) && i.staticTrackConfirmed)
  }

  /** Without formal cargo nothing is said unless the envelope, its state, its pose and its query hold. */
  predicate Open(i: Input) {
    i.pending.envelopeValid && i.pending.stateAllows && i.pending.posePlausible && i.pending.queryAllowed && !Unresolved(i)
  }

  predicate MayWarn(i: Input, c: Config, source: Source) {
    && Established(i, c, source) && Selectable(RiskOf(i, source))
    && (FormalCargo(i) || (Open(i) && Vouched(i, c, source)))
  }

  /** The candidate of the review, with near and low geometry. */
  predicate Candidate(i: Input) {
    && i.review.candidate
    && i.review.distance.Some? && i.review.distance.value <= REVIEW_REACH
    && i.review.clearance.Some? && i.review.clearance.value < MINIMUM_CLEARANCE
  }

  ghost predicate AnyEstablished(i: Input, c: Config) { Established(i, c, Live) || Established(i, c, StaticMap) }

  ghost predicate AnyUnestablished(i: Input, c: Config) { Unestablished(i, c, Live) || Unestablished(i, c, StaticMap) }

  ghost predicate MayReview(i: Input, c: Config, source: Source) {
    && Selectable(RiskOf(i, source))
    && if AnyUnestablished(i, c) then Unestablished(i, c, source) && (FormalCargo(i) || Open(i))
       else FormalCargo(i) && Candidate(i) && (if source == Live then i.review.live else i.review.fromMap)
  }

  /** The model's stages, read from the input. */
  lemma Stages(i: Input, c: Config)
    ensures LiveStandard(i) == Established(i, c, Live) && StaticStandard(i, c) == Established(i, c, StaticMap)
    ensures LiveWithoutHistory(i) == Unestablished(i, c, Live) && StaticUnproven(i, c) == Unestablished(i, c, StaticMap)
    ensures AuthorizeLive(i, c) == Vouched(i, c, Live) && AuthorizeStatic(i, c) == Vouched(i, c, StaticMap)
    ensures RiskLive(i) == Audible(i, Live) && StaticObserved(i) == Audible(i, StaticMap)
    ensures (i.review.candidate && ReviewGeometry(i.review)) == Candidate(i)
    ensures (EmbeddedUnresolved(i) && !RiskStatic(i)) == Unresolved(i)
  {}

  // ---------------------------------------------------------------- warnings

  /** x outranks y: a 17 before an 18, of equal codes the nearer. */
  predicate Outranks(x: Hazard, y: Risk)
    requires y.distance.Some?
  {
    (x.code == NEAR_3M && y.code == NEAR_5M) || (x.code == y.code && x.distance <= y.distance.value)
  }

  /** The hazard carries the code, distance, clearance and identity of the risk of its source. */
  predicate IsOf(h: Hazard, code: int, r: Risk) {
    h.code == code && r.distance == Some(h.distance) && r.clearance == Some(h.clearance) && h.id == r.id
  }

  lemma SelectedOutranks(allowLive: bool, live: Risk, allowMap: bool, fromMap: Risk)
    ensures var h := SelectHazard(allowLive, live, allowMap, fromMap);
            && (h.Some? <==> (allowLive && Selectable(live)) || (allowMap && Selectable(fromMap)))
            && (h.Some? ==>
                  && (if h.value.source == Live then allowLive && Selectable(live) && IsOf(h.value, live.code, live)
                      else allowMap && Selectable(fromMap) && IsOf(h.value, fromMap.code, fromMap))
                  && (allowLive && Selectable(live) ==> Outranks(h.value, live))
                  && (allowMap && Selectable(fromMap) ==> Outranks(h.value, fromMap)))
  {}

  /** The result is a 17 or 18 exactly when the hazard was there to select, and it carries the one that outranks the other. */
  ghost predicate Warned(r: Result, authority: AvoidanceFusion.Authority, allowLive: bool, live: Risk, allowMap: bool, fromMap: Risk) {
    && (Warning(r.code) <==> (allowLive && Selectable(live)) || (allowMap && Selectable(fromMap)))
    && (Warning(r.code) ==>
          && r.authority == authority && r.hazard.Some?
          && (if r.hazard.value.source == Live then allowLive && Selectable(live) && r.code == live.code && IsOf(r.hazard.value, r.code, live)
              else allowMap && Selectable(fromMap) && r.code == fromMap.code && IsOf(r.hazard.value, r.code, fromMap))
          && (allowLive && Selectable(live) ==> Outranks(r.hazard.value, live))
          && (allowMap && Selectable(fromMap) ==> Outranks(r.hazard.value, fromMap)))
  }

  lemma CarryingWarned(base: Result, authority: AvoidanceFusion.Authority, allowLive: bool, live: Risk, allowMap: bool, fromMap: Risk)
    ensures Warned(Carrying(base, SelectHazard(allowLive, live, allowMap, fromMap), authority), authority, allowLive, live, allowMap, fromMap)
  {
    SelectedOutranks(allowLive, live, allowMap, fromMap);
  }

  lemma CarryingReviewIsNoWarning(base: Result, allowLive: bool, live: Risk, allowMap: bool, fromMap: Risk)
    ensures !Warning(Carrying(base, SelectReview(allowLive, live, allowMap, fromMap), NoAuthority).code)
  {
    SelectionsAreSound(allowLive, live, allowMap, fromMap);
  }

  lemma FormalWarns(i: Input, c: Config)
    requires FormalCargo(i)
    ensures Warned(FuseFormal(i, c), Formal, Established(i, c, Live), i.live, Established(i, c, StaticMap), i.fromMap)
  {
    Stages(i, c);
    var base := Base(i, CARGO_INVALID);
    CarryingWarned(base, Formal, LiveStandard(i), i.live, StaticStandard(i, c), i.fromMap);
    CarryingReviewIsNoWarning(base, LiveWithoutHistory(i), i.live, StaticUnproven(i, c), i.fromMap);
    CarryingReviewIsNoWarning(base.(distance := i.review.distance, clearance := i.review.clearance),
                              i.review.live, i.live, i.review.fromMap, i.fromMap);
  }

  predicate Admitted(i: Input, c: Config, source: Source) { Open(i) && Established(i, c, source) && Vouched(i, c, source) }

  lemma PendingWarns(i: Input, c: Config)
    requires !FormalCargo(i)
    ensures Warned(FusePending(i, c), PositiveOnly, Admitted(i, c, Live), i.live, Admitted(i, c, StaticMap), i.fromMap)
  {
    Stages(i, c);
    var base := Base(i, CARGO_INVALID);
    CarryingWarned(base, PositiveOnly, LiveStandard(i) && AuthorizeLive(i, c), i.live, StaticStandard(i, c) && AuthorizeStatic(i, c), i.fromMap);
    CarryingReviewIsNoWarning(base, LiveWithoutHistory(i), i.live, StaticUnproven(i, c), i.fromMap);
  }

  lemma UnconfirmedIsNotEstablished(i: Input, c: Config)
    ensures Unconfirmed(i) == (StaticObserved(i) && !i.staticTrackConfirmed && !RiskLive(i) && !i.candidatePresent)
    ensures Unconfirmed(i) ==> !Established(i, c, Live) && !Established(i, c, StaticMap)
  {}

  /** A 17 or 18 is said exactly when some source may warn; the hazard it carries is of such a source and outranks the other. */
  lemma WarnsExactly(i: Input, c: Config)
    ensures var r := Fuse(i, c);
            && (Warning(r.code) <==> i.localizationValid && (MayWarn(i, c, Live) || MayWarn(i, c, StaticMap)))
            && (Warning(r.code) ==>
                  && r.authority == (if FormalCargo(i) then Formal else PositiveOnly)
                  && r.hazard.Some? && MayWarn(i, c, r.hazard.value.source)
                  && IsOf(r.hazard.value, r.code, RiskOf(i, r.hazard.value.source))
                  && RiskOf(i, r.hazard.value.source).code == r.code
                  && forall s: Source :: MayWarn(i, c, s) ==> Outranks(r.hazard.value, RiskOf(i, s)))
  {
    UnconfirmedIsNotEstablished(i, c);
    if FormalCargo(i) {
      FormalWarns(i, c);
    } else {
      PendingWarns(i, c);
    }
  }

  // ---------------------------------------------------------------- reviews

  lemma ReviewedNearest(allowLive: bool, live: Risk, allowMap: bool, fromMap: Risk)
    ensures var h := SelectReview(allowLive, live, allowMap, fromMap);
            && (h.Some? <==> (allowLive && Selectable(live)) || (allowMap && Selectable(fromMap)))
            && (h.Some? ==>
                  && (if h.value.source == Live then allowLive && Selectable(live) && IsOf(h.value, ANOMALY_REVIEW, live)
                      else allowMap && Selectable(fromMap) && IsOf(h.value, ANOMALY_REVIEW, fromMap))
                  && (allowLive && Selectable(live) ==>
                        h.value.distance <= live.distance.value && (h.value.source == StaticMap ==> h.value.distance < live.distance.value))
                  && (allowMap && Selectable(fromMap) ==> h.value.distance <= fromMap.distance.value))
  {}

  /** The result is a 29 exactly when the hazard was there to select, and it carries the nearer one. */
  ghost predicate Reviewed(r: Result, allowLive: bool, live: Risk, allowMap: bool, fromMap: Risk) {
    && (r.code == ANOMALY_REVIEW <==> (allowLive && Selectable(live)) || (allowMap && Selectable(fromMap)))
    && (r.code == ANOMALY_REVIEW ==>
          && r.authority == NoAuthority && r.hazard.Some?
          && (if r.hazard.value.source == Live then allowLive && Selectable(live) && IsOf(r.hazard.value, ANOMALY_REVIEW, live)
              else allowMap && Selectable(fromMap) && IsOf(r.hazard.value, ANOMALY_REVIEW, fromMap))
          && (allowLive && Selectable(live) ==>
                && r.hazard.value.distance <= live.distance.value
                && (r.hazard.value.source == StaticMap ==> r.hazard.value.distance < live.distance.value))
          && (allowMap && Selectable(fromMap) ==> r.hazard.value.distance <= fromMap.distance.value))
  }

  lemma CarryingReviewed(base: Result, allowLive: bool, live: Risk, allowMap: bool, fromMap: Risk)
    requires base.code != ANOMALY_REVIEW
    ensures Reviewed(Carrying(base, SelectReview(allowLive, live, allowMap, fromMap), NoAuthority), allowLive, live, allowMap, fromMap)
  {
    ReviewedNearest(allowLive, live, allowMap, fromMap);
  }

  lemma FormalReviews(i: Input, c: Config)
    requires FormalCargo(i) && !AnyEstablished(i, c)
    ensures Reviewed(FuseFormal(i, c),
                     if AnyUnestablished(i, c) then Unestablished(i, c, Live) else Candidate(i) && i.review.live, i.live,
                     if AnyUnestablished(i, c) then Unestablished(i, c, StaticMap) else Candidate(i) && i.review.fromMap, i.fromMap)
  {
    Stages(i, c);
    var base := Base(i, CARGO_INVALID);
    if AnyUnestablished(i, c) {
      CarryingReviewed(base, LiveWithoutHistory(i), i.live, StaticUnproven(i, c), i.fromMap);
    } else if Candidate(i) {
      CarryingReviewed(base.(distance := i.review.distance, clearance := i.review.clearance),
                       i.review.live, i.live, i.review.fromMap, i.fromMap);
    }
  }

  lemma PendingReviews(i: Input, c: Config)
    requires !FormalCargo(i) && !AnyEstablished(i, c)
    ensures Reviewed(FusePending(i, c), Open(i) && Unestablished(i, c, Live), i.live, Open(i) && Unestablished(i, c, StaticMap), i.fromMap)
  {
    Stages(i, c);
    CarryingReviewed(Base(i, CARGO_INVALID), LiveWithoutHistory(i), i.live, StaticUnproven(i, c), i.fromMap);
  }

  lemma EstablishedIsNoReview(i: Input, c: Config)
    requires AnyEstablished(i, c)
    ensures Fuse(i, c).code != ANOMALY_REVIEW
  {
    Stages(i, c);
    SelectionsAreSound(LiveStandard(i), i.live, StaticStandard(i, c), i.fromMap);
    SelectionsAreSound(LiveStandard(i) && AuthorizeLive(i, c), i.live, StaticStandard(i, c) && AuthorizeStatic(i, c), i.fromMap);
  }

  /** A 29 is said exactly when nothing is established and some source may be reviewed; it carries the nearer such hazard, the live one of equals. */
  lemma ReviewsExactly(i: Input, c: Config)
    ensures var r := Fuse(i, c);
            && (r.code == ANOMALY_REVIEW <==>
                  && i.localizationValid && !Unconfirmed(i) && !AnyEstablished(i, c)
                  && (MayReview(i, c, Live) || MayReview(i, c, StaticMap)))
            && (r.code == ANOMALY_REVIEW ==>
                  && r.authority == NoAuthority
                  && r.hazard.Some? && MayReview(i, c, r.hazard.value.source)
                  && IsOf(r.hazard.value, ANOMALY_REVIEW, RiskOf(i, r.hazard.value.source))
                  && (forall s: Source :: MayReview(i, c, s) ==> r.hazard.value.distance <= RiskOf(i, s).distance.value)
                  && (r.hazard.value.source == StaticMap && MayReview(i, c, Live) ==> r.hazard.value.distance < i.live.distance.value))
  {
    UnconfirmedIsNotEstablished(i, c);
    if AnyEstablished(i, c) {
      EstablishedIsNoReview(i, c);
    } else if FormalCargo(i) {
      FormalReviews(i, c);
    } else {
      PendingReviews(i, c);
    }
  }

  // ---------------------------------------------------------------- the fail-safe codes

  /** Exactly when the cargo is what is missing. */
  ghost predicate CargoMissing(i: Input, c: Config) {
    if FormalCargo(i) then
      && !AnyEstablished(i, c) && !AnyUnestablished(i, c) && !Candidate(i) && !i.clearAuthorized
      && !EmbeddedUnresolved(i) && !(i.candidatePresent && Warning(i.candidateCode))
    else
      || !Open(i)
      || (if AnyEstablished(i, c) then forall s: Source :: Established(i, c, s) ==> !Vouched(i, c, s)
          else !AnyUnestablished(i, c))
  }

  lemma FormalCargoMissing(i: Input, c: Config)
    requires FormalCargo(i)
    ensures FuseFormal(i, c).code == CARGO_INVALID <==> CargoMissing(i, c)
    ensures FuseFormal(i, c).code != LOCALIZATION_INVALID
  {
    Stages(i, c);
    SelectionsAreSound(LiveStandard(i), i.live, StaticStandard(i, c), i.fromMap);
    SelectionsAreSound(LiveWithoutHistory(i), i.live, StaticUnproven(i, c), i.fromMap);
    SelectionsAreSound(i.review.live, i.live, i.review.fromMap, i.fromMap);
  }

  lemma PendingCargoMissing(i: Input, c: Config)
    requires !FormalCargo(i)
    ensures FusePending(i, c).code == CARGO_INVALID <==> CargoMissing(i, c)
    ensures FusePending(i, c).code != LOCALIZATION_INVALID
  {
    Stages(i, c);
    SelectionsAreSound(LiveStandard(i) && AuthorizeLive(i, c), i.live, StaticStandard(i, c) && AuthorizeStatic(i, c), i.fromMap);
    SelectionsAreSound(LiveWithoutHistory(i), i.live, StaticUnproven(i, c), i.fromMap);
  }

  /** 31 exactly without localization, 33 exactly when the cargo is missing, and 34 in every case no other code covers. */
  lemma FailSafeExactly(i: Input, c: Config)
    ensures var code := Fuse(i, c).code;
            && (code == LOCALIZATION_INVALID <==> !i.localizationValid)
            && (code == CARGO_INVALID <==> i.localizationValid && !Unconfirmed(i) && CargoMissing(i, c))
            && code in {CLEAR, NEAR_3M, NEAR_5M, ANOMALY_REVIEW, LOCALIZATION_INVALID, CARGO_INVALID, OBSTACLE_INVALID}
  {
    OfficialCodesAreBacked(i, c);
    UnconfirmedIsNotEstablished(i, c);
    if FormalCargo(i) {
      FormalCargoMissing(i, c);
    } else {
      PendingCargoMissing(i, c);
    }
  }
}
