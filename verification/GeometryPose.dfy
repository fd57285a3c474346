/**
 Where a frozen geometry stands: its bottom hangs one height below what the frame measured, and its
 conservative bottom below that by everything that is not certain.
 */
module GeometryPose {
  import opened Prelude
  import opened GeometryThickness
  import opened GeometryFusion
  import opened GeometryRuns
  import GeometryWindows

  /** What a frame makes of the pose: the bottom from its top, else from its centre, else as it was. */
  ghost predicate Hangs(before: Geometry, g: Geometry, f: Frame) {
    && g.bottom.Some?
    && (f.top.Some? ==> g.bottom.value + g.height == f.top.value)
    && (f.top.None? && f.centre.Some? ==> f.centre.value.z - g.bottom.value == g.height / 2.0)
    && (f.top.None? && f.centre.None? ==> g.bottom == before.bottom && g.height == before.height)
    && (f.centre.Some? ==> g.centre == f.centre.value)
    && (f.centre.None? ==> g.centre == before.centre)
  }

  /** How far the conservative bottom lies below the top of the cargo. */
  ghost predicate Guarded(c: Config, g: Geometry, f: Frame) {
    && g.bottom.Some? && g.conservative.Some?
    && var tracking, surface := if f.trackingUncertainty > 0.0 then f.trackingUncertainty else 0.0,
                                if f.topUncertainty > 0.0 then f.topUncertainty else 0.0;
       var depth := g.bottom.value + g.height - g.conservative.value;
       if g.formal then depth == g.height + g.uncertainty + tracking + surface + c.margin
       else
         && depth >= g.upper + tracking + c.margin + 0.15 && depth >= g.height + tracking + c.margin + 0.15
         && depth >= g.upper + tracking + c.margin + 3.0 * surface && depth >= g.height + tracking + c.margin + 3.0 * surface
         && (|| depth == g.upper + tracking + c.margin + 0.15 || depth == g.height + tracking + c.margin + 0.15
             || depth == g.upper + tracking + c.margin + 3.0 * surface || depth == g.height + tracking + c.margin + 3.0 * surface)
  }

  lemma PoseHangs(c: Config, g: Geometry, f: Frame)
    requires g.bottom.Some?
    ensures Hangs(g, Pose(c, g, f), f) && Guarded(c, Pose(c, g, f), f)
  {}

  /** A promotion needs a centre, so without one the height stays. */
  lemma PromotionNeedsCentre(c: Config, s: State, f: Frame, continuous: bool)
    ensures var g := Promotion(c, s, f, continuous).geometry;
            && g.bottom == s.geometry.bottom && g.centre == s.geometry.centre
            && (f.centre.None? ==> g.height == s.geometry.height)
  {}

  lemma FrozenHangs(c: Config, s: State, f: Frame, continuous: bool)
    requires s.geometry.frozen && s.geometry.bottom.Some?
    ensures var g := FrozenStep(c, s, f, continuous).geometry;
            Hangs(s.geometry, g, f) && Guarded(c, g, f) && (g.valid <==> f.centre.Some?)
  {
    var t := Segment(Promotion(c, s, f, continuous), f, continuous);
    PromotionNeedsCentre(c, s, f, continuous);
    SegmentFrame(Promotion(c, s, f, continuous), f, continuous);
    PoseHangs(c, t.geometry, f);
    DimensionsFrame(c, Poised(c, s, f, continuous), f);
  }

  lemma FreezeHangs(c: Config, g: Geometry, f: Frame, formal: bool, e: Estimate, median: Size)
    requires f.centre.Some? && f.yaw.Some? && (!formal ==> e.upper >= e.height)
    ensures var h := Freeze(c, g, f, formal, e, median);
            Hangs(g, h, f) && Guarded(c, h, f) && h.valid
  {}

  lemma FreezeIfHangs(c: Config, s: State, f: Frame, formal: bool, confirmed: nat, e: Estimate)
    requires ValidConfig(c) && !s.geometry.frozen && f.centre.Some? && f.yaw.Some? && (!formal && confirmed > 0 ==> e.upper >= e.height)
    requires FreezeIf(c, s, f, formal, confirmed, e).geometry.frozen
    ensures var g := FreezeIf(c, s, f, formal, confirmed, e).geometry; Hangs(s.geometry, g, f) && Guarded(c, g, f) && g.valid
  {
    FreezeHangs(c, s.geometry.(valid := false, confirmed := confirmed, lower := e.lower, upper := e.upper), f, formal, e,
                MedianSize(Good(s.shapeWindow)));
  }

  lemma ConfirmHangs(c: Config, s: State, f: Frame, formal: bool, e: Estimate)
    requires ValidConfig(c) && !s.geometry.frozen && PendingOk(c, s) && s.mode == Some(formal)
    requires f.centre.Some? && f.yaw.Some? && (!formal ==> e.uncertainty > 0.0 && e.height <= c.rules.maxHeight)
    requires Confirm(c, s, f, formal, e).geometry.frozen
    ensures var g := Confirm(c, s, f, formal, e).geometry; Hangs(s.geometry, g, f) && Guarded(c, g, f) && g.valid
  {
    var t := s.(thicknessWindow := SetLast(s.thicknessWindow, e.height));
    if !formal {
      GoodCapped(t.thicknessWindow, c.rules.maxHeight);
      TallyCapped(c, Good(t.thicknessWindow), e);
    }
    var (confirmed, r) := Tally(c, Good(t.thicknessWindow), formal, e);
    FreezeIfHangs(c, t, f, formal, confirmed, r);
  }

  lemma ReadiedOk(c: Config, s: State, f: Frame)
    requires ValidConfig(c) && Rooted(c) && !s.geometry.frozen && PendingOk(c, s)
    requires PendingStep(c, s, f).geometry.frozen
    ensures var u, e := GeometryWindows.Readied(c, s, f), Gather(c, f);
            && Placed(f) && GeometryWindows.HeightOf(c, f).Some? && !u.geometry.frozen && PendingOk(c, u) && u.mode == Some(e.pair.Some?)
            && u.geometry == s.geometry.(lifecycle := f.lifecycle, segment := f.segment)
            && (!e.pair.Some? ==> Estimated(c, e).uncertainty > 0.0 && Estimated(c, e).height <= c.rules.maxHeight)
  {
    WindowsOk(c, s, f);
    EstimateOk(c, Gather(c, f));
    if Placed(f) {
      GeometryWindows.PlacedStep(c, s, f);
    }
  }

  lemma PendingHangs(c: Config, s: State, f: Frame)
    requires ValidConfig(c) && Rooted(c) && !s.geometry.frozen && PendingOk(c, s)
    requires PendingStep(c, s, f).geometry.frozen
    ensures var g := PendingStep(c, s, f).geometry;
            Hangs(s.geometry, g, f) && Guarded(c, g, f) && g.valid && f.centre.Some?
  {
    var e := Gather(c, f);
    ReadiedOk(c, s, f);
    GeometryWindows.PlacedStep(c, s, f);
    ConfirmHangs(c, GeometryWindows.Readied(c, s, f), f, e.pair.Some?, Estimated(c, e));
  }

  /**
   On every run, after a frame that the geometry takes and that leaves it frozen, the freezing frame included: the
   bottom lies one height below the measured top; without a top, half a height below the centre; without either it
   is the one before. The conservative bottom lies below the top by the height and its uncertainty (formal) or the
   upper thickness if that is more (positive-only), the tracking allowance, the surface allowance (threefold and at
   least 0.15 when positive-only) and the margin. The pose is valid exactly when the frame has a centre.
   */
  lemma {:induction false} BottomIsMeasured(c: Config, run: seq<Frame>, f: Frame)
    requires ValidConfig(c) && Rooted(c) && Advances(After(c, run), f) && f.lifecycle != 0
    requires Step(c, After(c, run), f).geometry.frozen
    ensures var before, g := After(c, run).geometry, Step(c, After(c, run), f).geometry;
            && Hangs(before, g, f) && Guarded(c, g, f) && (g.valid <==> f.centre.Some?)
  {
    var s := After(c, run);
    RunOk(c, run);
    var t := Timed(c, s, f);
    if OtherLifecycle(t, f) {
      PendingHangs(c, INITIAL.(lastStamp := f.stamp.value), f);
    } else if t.geometry.frozen {
      FrozenHangs(c, t, f, Continuous(c, s.lastStamp, f.stamp.value));
    } else {
      PendingHangs(c, t, f);
    }
  }

  // ---------------------------------------------------------------- the thickness behind it

  /** Positive-only geometry is at least as thick as either measurement says, within the physical range, and no thicker than the thicker one. */
  lemma PositiveIsThickest(r: Rules, best: Option<Thickness>, live: Thickness)
    requires Usable(r, live) && (best.Some? ==> Usable(r, best.value)) && 0.0 < r.minHeight
    ensures var e := PositiveEstimate(r, best, live);
            && e.height >= live.height && (best.Some? ==> e.height >= best.value.height)
            && (e.height == live.height || (best.Some? && e.height == best.value.height))
            && r.minHeight <= e.height <= e.upper <= r.maxHeight
            && (e.upper == r.maxHeight || e.upper >= live.height + live.uncertainty)
            && (best.Some? ==> e.upper == r.maxHeight || e.upper >= best.value.height + best.value.uncertainty)
            && e.uncertainty >= r.uncertaintyFloor
  {}

  /**
   A formal pair is two full measurements within the disagreement of each other: the two static ones, or the one
   that counts (revealed support before origin) with the live one; absent exactly when neither agrees.
   */
  lemma FormalPairAgrees(r: Rules, origin: Option<Thickness>, revealed: Option<Thickness>, live: Option<Thickness>)
    ensures var pair := FormalPair(r, origin, revealed, live);
            var near := (a: Option<Thickness>, b: Option<Thickness>) =>
                          a.Some? && b.Some? && a.value.constraint == Full && b.value.constraint == Full
                          && -r.disagreement <= a.value.height - b.value.height <= r.disagreement;
            var counts := if revealed.Some? then revealed else origin;
            && (pair.Some? <==> near(origin, revealed) || near(counts, live))
            && (near(origin, revealed) ==> pair == Some((origin.value, revealed.value)))
            && (pair.Some? && !near(origin, revealed) ==> pair == Some((counts.value, live.value)))
  {}
}
