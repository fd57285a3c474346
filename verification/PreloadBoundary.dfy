/**
 The one-shot preload reference: a frozen certificate moves through a pending boundary, or straight
 into a handoff, when the lifecycle edge and the EMPTY to LOADED edge arrive, and a handoff is
 consumed by at most one new history.
 */
module PreloadBoundary {
  import opened Prelude

  const EPSILON: real := 0.000000001

  datatype Gravity = Unknown | Empty | Loaded

  datatype Phase = WaitingForLoad | WaitingForLifecycle

  datatype TriggerMode = SameFrame | LifecycleThenLoad | LoadThenLifecycle

  /** A certificate is identified by its serial number; its frozen geometry travels with it. */
  datatype Pending = Pending(token: nat, phase: Phase, firstEdge: real, referenceLoadStamp: real)

  datatype Handoff = Handoff(token: nat, loadEdge: real)

  datatype State = State(
    initialized: bool,
    lifecycle: nat,
    lastStamp: real,
    previousGravityValid: bool,
    previousGravity: Gravity,
    previousExistence: bool,
    certificate: Option<nat>,
    boundary: Option<Pending>,
    handoff: Option<Handoff>,
    created: nat)

  /**
   One update. stamp is None when the pipeline stamp is not finite. The last seven fields are what the
   group stage reports: how many groups match the handoff, whether the matching group opens a new
   history, whether a history completes its preload reference, whether a supported group at the frozen
   centre no longer has the frozen extent, and whether cargo exists.
   */
  datatype Frame = Frame(
    stamp: Option<real>,
    lifecycle: nat,
    rearm: bool,
    gravityValid: bool,
    gravity: Gravity,
    hookRequired: bool,
    groupsEmpty: bool,
    geometricCandidates: nat,
    matchingGroups: nat,
    opensHistory: bool,
    completesReference: bool,
    contradicted: bool,
    cargoExists: bool)

  /** What one update did with the tokens: dropped lists those that left their slot without being consumed. */
  datatype Decision = Decision(captured: Option<(nat, TriggerMode)>, consumed: Option<nat>, minted: Option<nat>, dropped: seq<nat>)

  const INITIAL := State(false, 0, 0.0, false, Unknown, false, None, None, None, 0)

  predicate GravityLoaded(f: Frame) { f.gravityValid && f.gravity == Loaded }
  predicate GravityEmpty(f: Frame) { f.gravityValid && f.gravity == Empty }

  predicate LoadEdge(s: State, f: Frame) {
    s.initialized && s.previousGravityValid && s.previousGravity == Empty && GravityLoaded(f)
  }

  predicate LifecycleEdge(s: State, f: Frame) {
    s.initialized && f.lifecycle != s.lifecycle
  }

  predicate Rollback(s: State, f: Frame) {
    s.initialized && f.stamp.Some? && f.stamp.value + EPSILON < s.lastStamp
  }

  predicate Accepted(s: State, f: Frame) {
    && f.stamp.Some? && f.stamp.value > 0.0
    && (!s.initialized || Rollback(s, f) || f.rearm || f.lifecycle != s.lifecycle || f.stamp.value > s.lastStamp)
  }

  predicate CaptureAllowed(s: State, f: Frame) { !Rollback(s, f) && !f.rearm }

  // ---------------------------------------------------------------- the stages of one accepted update

  function BoundaryToken(s: State): Option<nat> {
    if s.boundary.Some? then Some(s.boundary.value.token) else None
  }

  function HandoffToken(s: State): Option<nat> {
    if s.handoff.Some? then Some(s.handoff.value.token) else None
  }

  function Listed(token: Option<nat>): seq<nat> {
    if token.Some? then [token.value] else []
  }

  /** The tokens in the slots. */
  function Slots(s: State): seq<nat> {
    Listed(s.certificate) + Listed(BoundaryToken(s)) + Listed(HandoffToken(s))
  }

  function ClearAll(s: State): (State, seq<nat>) {
    (s.(certificate := None, boundary := None, handoff := None), Slots(s))
  }

  function DropCertificate(s: State): (State, seq<nat>) {
    (s.(certificate := None), Listed(s.certificate))
  }

  /** A handoff lives only while loaded and no longer than the gap after its load edge. */
  function ExpireHandoff(s: State, f: Frame, gap: real): (State, seq<nat>)
    requires f.stamp.Some?
  {
    if s.handoff.Some? &&
       (!GravityLoaded(f) || !(f.stamp.value - s.handoff.value.loadEdge >= 0.0) || f.stamp.value - s.handoff.value.loadEdge > gap)
    then (s.(handoff := None), [s.handoff.value.token]) else (s, [])
  }

  function Rearm(s: State, f: Frame): (State, seq<nat>) {
    if f.rearm && (s.handoff.Some? || s.boundary.Some?) then ClearAll(s) else (s, [])
  }

  predicate Complementary(b: Pending, lifecycleEdge: bool, loadEdge: bool) {
    (b.phase == WaitingForLoad && loadEdge) || (b.phase == WaitingForLifecycle && lifecycleEdge)
  }

  predicate Repeats(b: Pending, lifecycleEdge: bool, loadEdge: bool) {
    (b.phase == WaitingForLoad && lifecycleEdge) || (b.phase == WaitingForLifecycle && loadEdge)
  }

  /** The complementary edge within the gap promotes the pending boundary; staleness or a repeated edge drops it. */
  function Promote(s: State, f: Frame, allowed: bool, lifecycleEdge: bool, loadEdge: bool, gap: real): (State, Option<(nat, TriggerMode)>, seq<nat>)
    requires f.stamp.Some?
  {
    if !allowed || s.boundary.None? || s.handoff.Some? then (s, None, [])
    else
      var b, now := s.boundary.value, f.stamp.value;
      var age := now - b.firstEdge;
      if Complementary(b, lifecycleEdge, loadEdge) && 0.0 <= age <= gap then
        if b.phase == WaitingForLoad then
          (s.(boundary := None, handoff := Some(Handoff(b.token, now))), Some((b.token, LifecycleThenLoad)), [])
        else
          (s.(boundary := None, handoff := Some(Handoff(b.token, b.referenceLoadStamp))), Some((b.token, LoadThenLifecycle)), [])
      else if age > gap || Repeats(b, lifecycleEdge, loadEdge)
              || (b.phase == WaitingForLoad && !GravityLoaded(f) && !GravityEmpty(f)) then
        (s.(boundary := None), None, [b.token])
      else (s, None, [])
  }

  /** An edge with both slots free spends the certificate on a handoff or on a pending boundary. */
  function Capture(s: State, f: Frame, allowed: bool, lifecycleEdge: bool, loadEdge: bool): (State, Option<(nat, TriggerMode)>)
    requires f.stamp.Some?
  {
    if !allowed || s.handoff.Some? || s.boundary.Some? || !(lifecycleEdge || loadEdge) || s.certificate.None? then (s, None)
    else
      var token, now := s.certificate.value, f.stamp.value;
      var spent := s.(certificate := None);
      if lifecycleEdge && loadEdge then
        (spent.(handoff := Some(Handoff(token, now))), Some((token, SameFrame)))
      else if lifecycleEdge && GravityEmpty(f) then
        (spent.(boundary := Some(Pending(token, WaitingForLoad, now, 0.0))), None)
      else
        (spent.(boundary := Some(Pending(token, WaitingForLifecycle, now, now))), None)
  }

  /** A new lifecycle or a rearm ends the physical epoch: an unspent certificate is void. */
  function EndEpoch(s: State, f: Frame): (State, seq<nat>) {
    var (ended, dropped) := if f.rearm || LifecycleEdge(s, f) then DropCertificate(s.(previousExistence := false)) else (s, []);
    (ended.(lifecycle := f.lifecycle, lastStamp := if f.stamp.Some? then f.stamp.value else s.lastStamp, initialized := true), dropped)
  }

  function Unload(s: State, f: Frame): (State, seq<nat>) {
    if GravityEmpty(f) && s.previousExistence && f.hookRequired then DropCertificate(s) else (s, [])
  }

  function CloseEpoch(s: State, f: Frame): (State, seq<nat>) {
    var (s1, d1) := EndEpoch(s, f);
    var (s2, d2) := Unload(s1, f);
    (s2, d1 + d2)
  }

  /** A handoff needs exactly one geometric candidate that matches; the new history of that group consumes it. */
  function MatchHandoff(s: State, f: Frame): (State, Option<nat>, seq<nat>) {
    if s.handoff.None? then (s, None, [])
    else if f.matchingGroups != 1 || f.geometricCandidates != 1 then
      if !f.groupsEmpty || f.matchingGroups > 1 || f.geometricCandidates > 1 then (s.(handoff := None), None, [s.handoff.value.token])
      else (s, None, [])
    else if f.opensHistory then (s.(handoff := None), Some(s.handoff.value.token), [])
    else (s, None, [])
  }

  /** A completed preload reference mints a certificate unless one is still valid. */
  function Mint(s: State, f: Frame): (State, Option<nat>) {
    if f.completesReference && s.certificate.None? then (s.(certificate := Some(s.created), created := s.created + 1), Some(s.created))
    else (s, None)
  }

  /** While empty, a swapped owner at the frozen centre voids the certificate. */
  function Contradict(s: State, f: Frame): (State, seq<nat>) {
    if GravityEmpty(f) && f.contradicted then DropCertificate(s) else (s, [])
  }

  function Close(s: State, f: Frame): State {
    s.(previousExistence := GravityLoaded(f) || f.cargoExists, previousGravityValid := f.gravityValid, previousGravity := f.gravity)
  }

  function RollBack(s: State, f: Frame): (State, seq<nat>) {
    if Rollback(s, f) then ClearAll(s) else (s, [])
  }

  /** Rollback, expiry and rearm. */
  function Prepare(s: State, f: Frame, gap: real): (State, seq<nat>)
    requires f.stamp.Some?
  {
    var (s1, d1) := RollBack(s, f);
    var (s2, d2) := ExpireHandoff(s1, f, gap);
    var (s3, d3) := Rearm(s2, f);
    (s3, d1 + d2 + d3)
  }

  /** The slots after preparation, promotion and capture. */
  function BoundaryStages(s: State, f: Frame, gap: real): (State, Option<(nat, TriggerMode)>, seq<nat>)
    requires f.stamp.Some?
  {
    var allowed, lifecycleEdge, loadEdge := CaptureAllowed(s, f), LifecycleEdge(s, f), LoadEdge(s, f);
    var (s1, d1) := Prepare(s, f, gap);
    var (s2, promoted, d2) := Promote(s1, f, allowed, lifecycleEdge, loadEdge, gap);
    var (s3, captured) := Capture(s2, f, allowed, lifecycleEdge, loadEdge);
    (s3, if promoted.Some? then promoted else captured, d1 + d2)
  }

  /** Epoch end, unload, handoff matching, minting and the contradiction gate. */
  function GroupStages(s: State, f: Frame): (State, Option<nat>, Option<nat>, seq<nat>) {
    var (s1, d1) := CloseEpoch(s, f);
    var (s2, consumed, d2) := MatchHandoff(s1, f);
    var (s3, minted) := Mint(s2, f);
    var (s4, d4) := Contradict(s3, f);
    (Close(s4, f), consumed, minted, d1 + d2 + d4)
  }

  function Step(s: State, f: Frame, gap: real): (State, Decision) {
    if !Accepted(s, f) then
      var (s1, d1) := RollBack(s, f);
      (s1, Decision(None, None, None, d1))
    else
      var (s1, captured, d1) := BoundaryStages(s, f, gap);
      var (s2, consumed, minted, d2) := GroupStages(s1, f);
      (s2, Decision(captured, consumed, minted, d1 + d2))
  }

  /** An explicit reset empties everything; only the serial numbers go on. */
  function ResetStep(s: State): (State, seq<nat>) {
    (INITIAL.(created := s.created), Slots(s))
  }

  // ---------------------------------------------------------------- the object

  class Authority {
    const gap: real
    var initialized: bool
    var lifecycle: nat
    var lastStamp: real
    var previousGravityValid: bool
    var previousGravity: Gravity
    var previousExistence: bool
    var certificate: Option<nat>
    var boundary: Option<Pending>
    var handoff: Option<Handoff>
    var created: nat

    function Current(): State
      reads this
    {
      State(initialized, lifecycle, lastStamp, previousGravityValid, previousGravity, previousExistence,
            certificate, boundary, handoff, created)
    }

    constructor (maximumObservationGap: real)
      ensures Current() == INITIAL && gap == if maximumObservationGap > 0.0 then maximumObservationGap else 0.5
    {
      gap := if maximumObservationGap > 0.0 then maximumObservationGap else 0.5;
      initialized, lifecycle, lastStamp := false, 0, 0.0;
      previousGravityValid, previousGravity, previousExistence := false, Unknown, false;
      certificate, boundary, handoff, created := None, None, None, 0;
    }

    method Reset() returns (dropped: seq<nat>)
      modifies this
      ensures Current() == ResetStep(old(Current())).0 && dropped == ResetStep(old(Current())).1
    {
      dropped := DropAll();
      initialized, lifecycle, lastStamp := false, 0, 0.0;
      previousGravityValid, previousGravity, previousExistence := false, Unknown, false;
    }

    method Update(f: Frame) returns (d: Decision)
      modifies this
      ensures (Current(), d) == Step(old(Current()), f, gap)
    {
      if !Accepted(Current(), f) {
        var lost: seq<nat> := [];
        if Rollback(Current(), f) { lost := DropAll(); }
        return Decision(None, None, None, lost);
      }
      var captured, early := CrossBoundary(f);
      var consumed, minted, late := RunGroups(f);
      return Decision(captured, consumed, minted, early + late);
    }

    method DropAll() returns (dropped: seq<nat>)
      modifies this
      ensures Current() == ClearAll(old(Current())).0 && dropped == ClearAll(old(Current())).1
    {
      dropped := [];
      if certificate.Some? { dropped := dropped + [certificate.value]; }
      if boundary.Some? { dropped := dropped + [boundary.value.token]; }
      if handoff.Some? { dropped := dropped + [handoff.value.token]; }
      certificate, boundary, handoff := None, None, None;
    }

    method InvalidateCertificate() returns (dropped: seq<nat>)
      modifies this
      ensures Current() == DropCertificate(old(Current())).0 && dropped == DropCertificate(old(Current())).1
    {
      dropped := if certificate.Some? then [certificate.value] else [];
      certificate := None;
    }

    method CrossBoundary(f: Frame) returns (captured: Option<(nat, TriggerMode)>, dropped: seq<nat>)
      requires f.stamp.Some?
      modifies this
      ensures (Current(), captured, dropped) == BoundaryStages(old(Current()), f, gap)
    {
      var lifecycleEdge, loadEdge := LifecycleEdge(Current(), f), LoadEdge(Current(), f);
      var allowed := CaptureAllowed(Current(), f);
      dropped := PrepareSlots(f);
      var promoted, stale := PromotePending(f, allowed, lifecycleEdge, loadEdge);
      captured := CaptureFresh(f, allowed, lifecycleEdge, loadEdge);
      dropped := dropped + stale;
      if promoted.Some? { captured := promoted; }
    }

    method RunGroups(f: Frame) returns (consumed: Option<nat>, minted: Option<nat>, dropped: seq<nat>)
      requires f.stamp.Some?
      modifies this
      ensures var (s', c, m, d) := GroupStages(old(Current()), f); Current() == s' && consumed == c && minted == m && dropped == d
    {
      dropped := EndCargoEpoch(f);
      var rejected;
      consumed, rejected := ConsumeHandoff(f);
      dropped := dropped + rejected;
      minted := MintCertificate(f);
      var voided := VoidContradicted(f);
      dropped := dropped + voided;
      previousExistence := GravityLoaded(f) || f.cargoExists;
      previousGravityValid, previousGravity := f.gravityValid, f.gravity;
    }

    method VoidContradicted(f: Frame) returns (dropped: seq<nat>)
      modifies this
      ensures Current() == Contradict(old(Current()), f).0 && dropped == Contradict(old(Current()), f).1
    {
      dropped := [];
      if GravityEmpty(f) && f.contradicted {
        dropped := InvalidateCertificate();
      }
    }

    method PrepareSlots(f: Frame) returns (dropped: seq<nat>)
      requires f.stamp.Some?
      modifies this
      ensures Current() == Prepare(old(Current()), f, gap).0 && dropped == Prepare(old(Current()), f, gap).1
    {
      dropped := [];
      if Rollback(Current(), f) { dropped := DropAll(); }
      if handoff.Some? {
        var age := f.stamp.value - handoff.value.loadEdge;
        if !GravityLoaded(f) || !(age >= 0.0) || age > gap {
          dropped := dropped + [handoff.value.token];
          handoff := None;
        }
      }
      if f.rearm && (handoff.Some? || boundary.Some?) {
        var rest := DropAll();
        dropped := dropped + rest;
      }
    }

    method PromotePending(f: Frame, allowed: bool, lifecycleEdge: bool, loadEdge: bool)
      returns (captured: Option<(nat, TriggerMode)>, dropped: seq<nat>)
      requires f.stamp.Some?
      modifies this
      ensures (Current(), captured, dropped) == Promote(old(Current()), f, allowed, lifecycleEdge, loadEdge, gap)
    {
      captured, dropped := None, [];
      if allowed && boundary.Some? && handoff.None? {
        var b, now := boundary.value, f.stamp.value;
        var age := now - b.firstEdge;
        if Complementary(b, lifecycleEdge, loadEdge) && age >= 0.0 && age <= gap {
          if b.phase == WaitingForLoad {
            handoff, captured := Some(Handoff(b.token, now)), Some((b.token, LifecycleThenLoad));
          } else {
            handoff, captured := Some(Handoff(b.token, b.referenceLoadStamp)), Some((b.token, LoadThenLifecycle));
          }
          boundary := None;
        } else if age > gap || Repeats(b, lifecycleEdge, loadEdge)
                  || (b.phase == WaitingForLoad && !GravityLoaded(f) && !GravityEmpty(f)) {
          boundary, dropped := None, [b.token];
        }
      }
    }

    method CaptureFresh(f: Frame, allowed: bool, lifecycleEdge: bool, loadEdge: bool) returns (captured: Option<(nat, TriggerMode)>)
      requires f.stamp.Some?
      modifies this
      ensures (Current(), captured) == Capture(old(Current()), f, allowed, lifecycleEdge, loadEdge)
    {
      captured := None;
      if allowed && handoff.None? && boundary.None? && (lifecycleEdge || loadEdge) && certificate.Some? {
        var token, now := certificate.value, f.stamp.value;
        if lifecycleEdge && loadEdge {
          handoff, captured := Some(Handoff(token, now)), Some((token, SameFrame));
        } else if lifecycleEdge && GravityEmpty(f) {
          boundary := Some(Pending(token, WaitingForLoad, now, 0.0));
        } else {
          boundary := Some(Pending(token, WaitingForLifecycle, now, now));
        }
        certificate := None;
      }
    }

    method EndCargoEpoch(f: Frame) returns (dropped: seq<nat>)
      requires f.stamp.Some?
      modifies this
      ensures Current() == CloseEpoch(old(Current()), f).0 && dropped == CloseEpoch(old(Current()), f).1
    {
      dropped := [];
      if f.rearm || LifecycleEdge(Current(), f) {
        dropped := InvalidateCertificate();
        previousExistence := false;
      }
      lifecycle, lastStamp, initialized := f.lifecycle, f.stamp.value, true;
      if GravityEmpty(f) && previousExistence && f.hookRequired {
        var unloaded := InvalidateCertificate();
        dropped := dropped + unloaded;
      }
    }

    method ConsumeHandoff(f: Frame) returns (consumed: Option<nat>, dropped: seq<nat>)
      modifies this
      ensures (Current(), consumed, dropped) == MatchHandoff(old(Current()), f)
    {
      consumed, dropped := None, [];
      if handoff.Some? {
        if f.matchingGroups != 1 || f.geometricCandidates != 1 {
          if !f.groupsEmpty || f.matchingGroups > 1 || f.geometricCandidates > 1 {
            dropped, handoff := [handoff.value.token], None;
          }
        } else if f.opensHistory {
          consumed, handoff := Some(handoff.value.token), None;
        }
      }
    }

    method MintCertificate(f: Frame) returns (minted: Option<nat>)
      modifies this
      ensures (Current(), minted) == Mint(old(Current()), f)
    {
      minted := None;
      if f.completesReference && certificate.None? {
        certificate, minted, created := Some(created), Some(created), created + 1;
      }
    }
  }
}
