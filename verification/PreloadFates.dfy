/**
 What one update of the preload slots does, told from the slots before it and the frame: exactly when a
 reference is captured, consumed, minted, kept waiting or voided.
 */
module PreloadFates {
  import opened Prelude
  import opened PreloadBoundary

  /** The update may use what the slots hold: it is accepted, and neither rolls back nor rearms. */
  predicate Continues(s: State, f: Frame) { Accepted(s, f) && !Rollback(s, f) && !f.rearm }

  predicate Since(f: Frame, stamp: real, gap: real) {
    f.stamp.Some? && 0.0 <= f.stamp.value - stamp <= gap
  }

  predicate Edge(s: State, f: Frame) { LifecycleEdge(s, f) || LoadEdge(s, f) }

  /** The handoff is still good: loaded, and its load edge within the gap. */
  predicate LiveHandoff(s: State, f: Frame, gap: real) {
    s.handoff.Some? && f.gravityValid && f.gravity == Loaded && Since(f, s.handoff.value.loadEdge, gap)
  }

  /** The edge that the pending boundary waits for has come within the gap, and no handoff is in the way. */
  predicate Completes(s: State, f: Frame, gap: real) {
    && s.boundary.Some? && !LiveHandoff(s, f, gap) && Since(f, s.boundary.value.firstEdge, gap)
    && (s.boundary.value.phase == WaitingForLoad ==> LoadEdge(s, f))
    && (s.boundary.value.phase == WaitingForLifecycle ==> LifecycleEdge(s, f))
  }

  /** The pending boundary goes on waiting: behind a live handoff, or young enough, with no edge and a known gravity. */
  predicate Waits(s: State, f: Frame, gap: real) {
    && s.boundary.Some? && f.stamp.Some?
    && (|| LiveHandoff(s, f, gap)
        || (&& !Completes(s, f, gap) && f.stamp.value - s.boundary.value.firstEdge <= gap
            && (s.boundary.value.phase == WaitingForLoad ==>
                  !LifecycleEdge(s, f) && f.gravityValid && (f.gravity == Loaded || f.gravity == Empty))
            && (s.boundary.value.phase == WaitingForLifecycle ==> !LoadEdge(s, f))))
  }

  /** An edge finds the certificate, and no handoff or boundary in the way. */
  predicate Spends(s: State, f: Frame, gap: real) {
    Edge(s, f) && s.certificate.Some? && !LiveHandoff(s, f, gap) && !Completes(s, f, gap) && !Waits(s, f, gap)
  }

  // ---------------------------------------------------------------- capture

  /** A reference becomes a handoff by the edge its boundary waits for, or straight from the certificate by both edges at once. */
  function CapturedBy(s: State, f: Frame, gap: real): Option<(nat, TriggerMode)> {
    if !Continues(s, f) then None
    else if Completes(s, f, gap) then
      Some((s.boundary.value.token, if s.boundary.value.phase == WaitingForLoad then LifecycleThenLoad else LoadThenLifecycle))
    else if Spends(s, f, gap) && LifecycleEdge(s, f) && LoadEdge(s, f) then Some((s.certificate.value, SameFrame))
    else None
  }

  /** The handoff that stands when the groups are matched; its load edge is now unless the load edge came first. */
  function HandoffNow(s: State, f: Frame, gap: real): Option<Handoff> {
    if !Continues(s, f) || f.stamp.None? then None
    else if LiveHandoff(s, f, gap) then s.handoff
    else if Completes(s, f, gap) then
      Some(Handoff(s.boundary.value.token, if s.boundary.value.phase == WaitingForLoad then f.stamp.value else s.boundary.value.referenceLoadStamp))
    else if Spends(s, f, gap) && LifecycleEdge(s, f) && LoadEdge(s, f) then Some(Handoff(s.certificate.value, f.stamp.value))
    else None
  }

  /** The boundary that is pending afterwards: the one that waits, or a new one opened by the first of two edges. */
  function BoundaryNow(s: State, f: Frame, gap: real): Option<Pending> {
    if !Continues(s, f) || f.stamp.None? then None
    else if Waits(s, f, gap) then s.boundary
    else if Spends(s, f, gap) && !(LifecycleEdge(s, f) && LoadEdge(s, f)) then
      Some(if LifecycleEdge(s, f) && f.gravityValid && f.gravity == Empty then Pending(s.certificate.value, WaitingForLoad, f.stamp.value, 0.0)
           else Pending(s.certificate.value, WaitingForLifecycle, f.stamp.value, f.stamp.value))
    else None
  }

  /** The certificate survives the boundary, the end of an epoch and an unload. */
  predicate CertificateKept(s: State, f: Frame, gap: real) {
    && s.certificate.Some? && Continues(s, f) && !Spends(s, f, gap) && !LifecycleEdge(s, f)
    && !(f.gravityValid && f.gravity == Empty && s.previousExistence && f.hookRequired)
  }

  /** Preparation ends a stale handoff, and everything on a rollback. */
  lemma PrepareExactly(s: State, f: Frame, gap: real)
    requires Accepted(s, f)
    ensures var p := Prepare(s, f, gap).0;
            && p == s.(certificate := p.certificate, boundary := p.boundary, handoff := p.handoff)
            && (Continues(s, f) ==> p == if LiveHandoff(s, f, gap) then s else s.(handoff := None))
            && (!Continues(s, f) ==> p.handoff.None? && p.boundary.None?)
            && (Rollback(s, f) ==> p.certificate.None?)
  {}

  /** Promotion, from slots whose handoff is live or absent. */
  lemma PromoteExactly(s: State, p: State, f: Frame, gap: real)
    requires Continues(s, f) && p == if LiveHandoff(s, f, gap) then s else s.(handoff := None)
    ensures var (t, captured, dropped) := Promote(p, f, true, LifecycleEdge(s, f), LoadEdge(s, f), gap);
            && t.certificate == s.certificate
            && t == p.(boundary := t.boundary, handoff := t.handoff)
            && (captured.Some? <==> Completes(s, f, gap)) && (captured.Some? ==> captured == CapturedBy(s, f, gap))
            && t.handoff == (if LiveHandoff(s, f, gap) then s.handoff else if Completes(s, f, gap) then HandoffNow(s, f, gap) else None)
            && t.boundary == (if Waits(s, f, gap) then s.boundary else None)
  {}

  lemma BoundaryExactly(s: State, f: Frame, gap: real)
    requires Accepted(s, f)
    ensures var (t, captured, dropped) := BoundaryStages(s, f, gap);
            && captured == CapturedBy(s, f, gap) && t.handoff == HandoffNow(s, f, gap) && t.boundary == BoundaryNow(s, f, gap)
            && t == s.(certificate := t.certificate, boundary := t.boundary, handoff := t.handoff)
            && (Continues(s, f) ==> t.certificate == if Spends(s, f, gap) then None else s.certificate)
            && (Rollback(s, f) ==> t.certificate.None?)
  {
    PrepareExactly(s, f, gap);
    if Continues(s, f) {
      var p := Prepare(s, f, gap).0;
      PromoteExactly(s, p, f, gap);
    }
  }

  // ---------------------------------------------------------------- the groups

  /** Exactly one geometric candidate, and it matches. */
  predicate OneMatch(f: Frame) { f.matchingGroups == 1 && f.geometricCandidates == 1 }

  /** There is something to match and it is not exactly that. */
  predicate Mismatch(f: Frame) {
    !OneMatch(f) && (!f.groupsEmpty || f.matchingGroups > 1 || f.geometricCandidates > 1)
  }

  function TokenNow(s: State, f: Frame, gap: real): Option<nat> {
    if HandoffNow(s, f, gap).Some? then Some(HandoffNow(s, f, gap).value.token) else None
  }

  lemma GroupsExactly(s: State, f: Frame)
    ensures var (t, consumed, minted, dropped) := GroupStages(s, f); var kept := CloseEpoch(s, f).0.certificate;
            && consumed == (if s.handoff.Some? && OneMatch(f) && f.opensHistory then Some(s.handoff.value.token) else None)
            && t.handoff == (if Mismatch(f) || (OneMatch(f) && f.opensHistory) then None else s.handoff)
            && t.boundary == s.boundary
            && minted == (if f.completesReference && kept.None? then Some(s.created) else None)
            && t.certificate == (if f.gravityValid && f.gravity == Empty && f.contradicted then None else if minted.Some? then minted else kept)
  {
    EpochExactly(s, f);
  }

  /**
   For every update: which reference is captured; the standing handoff is consumed exactly by the one matching group that
   opens a history, dropped exactly on a mismatch, and kept otherwise; a completed reference mints the next serial number
   exactly when no certificate is kept; and a contradicted certificate is void while gravity is EMPTY.
   */
  lemma UpdateExactly(s: State, f: Frame, gap: real)
    requires Accepted(s, f)
    ensures var (t, d) := Step(s, f, gap);
            var kept := CertificateKept(s, f, gap);
            var minted := f.completesReference && !kept;
            && d.captured == CapturedBy(s, f, gap)
            && d.consumed == (if OneMatch(f) && f.opensHistory then TokenNow(s, f, gap) else None)
            && t.handoff == (if Mismatch(f) || (OneMatch(f) && f.opensHistory) then None else HandoffNow(s, f, gap))
            && t.boundary == BoundaryNow(s, f, gap)
            && d.minted == (if minted then Some(s.created) else None)
            && t.certificate == (if f.gravityValid && f.gravity == Empty && f.contradicted then None
                                 else if minted then Some(s.created) else if kept then s.certificate else None)
  {
    BoundaryExactly(s, f, gap);
    var (t, captured, dropped) := BoundaryStages(s, f, gap);
    EpochExactly(t, f);
    GroupsExactly(t, f);
  }

  lemma EpochExactly(s: State, f: Frame)
    ensures var t := CloseEpoch(s, f).0;
            && t.handoff == s.handoff && t.boundary == s.boundary && t.created == s.created
            && t.certificate == if f.rearm || LifecycleEdge(s, f) || (f.gravityValid && f.gravity == Empty && s.previousExistence && f.hookRequired)
                                then None else s.certificate
  {}

  /** What the update leaves for the next one to compare with. */
  lemma UpdateRemembers(s: State, f: Frame, gap: real)
    requires Accepted(s, f)
    ensures var t := Step(s, f, gap).0;
            && t.initialized && f.stamp == Some(t.lastStamp) && t.lifecycle == f.lifecycle
            && t.previousGravityValid == f.gravityValid && t.previousGravity == f.gravity
            && (t.previousExistence <==> (f.gravityValid && f.gravity == Loaded) || f.cargoExists)
  {
    BoundaryExactly(s, f, gap);
  }

  /** An update that is not accepted clears the slots if it rolls back, and leaves everything alone otherwise. */
  lemma RefusedExactly(s: State, f: Frame, gap: real)
    requires !Accepted(s, f)
    ensures var (t, d) := Step(s, f, gap);
            && d.captured.None? && d.consumed.None? && d.minted.None?
            && t == if Rollback(s, f) then s.(certificate := None, boundary := None, handoff := None) else s
  {}

  // ---------------------------------------------------------------- the way of a certificate

  /** A certificate that meets its lifecycle edge while EMPTY and the load edge within the gap is handed over and consumed by the one group that opens a history. */
  lemma LifecycleThenLoadConsumes(s: State, e: Frame, f: Frame, gap: real)
    requires s.certificate.Some? && s.boundary.None? && s.handoff.None?
    requires Continues(s, e) && LifecycleEdge(s, e) && e.gravityValid && e.gravity == Empty
    requires var t := Step(s, e, gap).0;
             Continues(t, f) && f.lifecycle == e.lifecycle && f.gravityValid && f.gravity == Loaded && Since(f, t.lastStamp, gap)
    requires OneMatch(f) && f.opensHistory
    ensures var d := Step(Step(s, e, gap).0, f, gap).1;
            d.captured == Some((s.certificate.value, LifecycleThenLoad)) && d.consumed == s.certificate
  {
    UpdateExactly(s, e, gap);
    UpdateRemembers(s, e, gap);
    UpdateExactly(Step(s, e, gap).0, f, gap);
  }

  /** The same with the load edge first: an EMPTY to LOADED edge, then the lifecycle edge within the gap. */
  lemma LoadThenLifecycleConsumes(s: State, e: Frame, f: Frame, gap: real)
    requires s.certificate.Some? && s.boundary.None? && s.handoff.None?
    requires Continues(s, e) && LoadEdge(s, e) && !LifecycleEdge(s, e)
    requires var t := Step(s, e, gap).0;
             Continues(t, f) && f.lifecycle != e.lifecycle && f.gravityValid && f.gravity == Loaded && Since(f, t.lastStamp, gap)
    requires OneMatch(f) && f.opensHistory
    ensures var d := Step(Step(s, e, gap).0, f, gap).1;
            d.captured == Some((s.certificate.value, LoadThenLifecycle)) && d.consumed == s.certificate
  {
    UpdateExactly(s, e, gap);
    UpdateRemembers(s, e, gap);
    UpdateExactly(Step(s, e, gap).0, f, gap);
  }
}
