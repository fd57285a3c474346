/**
 Whole runs of the geometry estimator: what a freeze guarantees for the rest of the lifecycle, how far
 the frozen dimensions may move, and the conservative bottom.
 */
module GeometryRuns {
  import opened Prelude
  import opened GeometryThickness
  import opened GeometryFusion

  function After(c: Config, run: seq<Frame>): State {
    if |run| == 0 then INITIAL else Step(c, After(c, run[..|run| - 1]), run[|run| - 1])
  }

  /** Continue from s. */
  function Continue(c: Config, s: State, frames: seq<Frame>): State {
    if |frames| == 0 then s else Step(c, Continue(c, s, frames[..|frames| - 1]), frames[|frames| - 1])
  }

  function SizeNow(g: Geometry): Size { Size(g.length, g.width) }

  function Measured(f: Frame): Size
    requires f.length.Some? && f.width.Some?
  {
    Size(f.length.value, f.width.value)
  }

  /** The state in which the frame's dimensions are judged. */
  function Judging(c: Config, s: State, f: Frame): State
    requires f.stamp.Some?
  {
    Poised(c, Timed(c, s, f), f, Continuous(c, s.lastStamp, f.stamp.value))
  }

  /** The square root of the fused variance is not negative. */
  ghost predicate Rooted(c: Config) {
    forall x: real :: c.rules.root(x) >= 0.0
  }

  // ---------------------------------------------------------------- what one frozen step changes

  /** Only the sizes, the shrink window and the expansion streak differ. */
  ghost predicate OnlySizes(s: State, t: State) {
    && t == s.(geometry := Resized(s.geometry, Size(t.geometry.length, t.geometry.width)), shrinkWindow := t.shrinkWindow, expansion := t.expansion)
    && t.expansion.segment == s.expansion.segment
  }

  lemma ShrinkFrame(c: Config, s: State, floor: Size)
    ensures OnlySizes(s, ShrinkIf(c, s, floor))
  {
    var sizes := Good(s.shrinkWindow);
    if |sizes| >= c.shrinkConfirmFrames && Steady(c, sizes) {
      var size := Shrunk(c, s.geometry, floor, MedianSize(sizes));
      assert size == Size(size.length, size.width);
    } else {
      assert s.geometry == Resized(s.geometry, Size(s.geometry.length, s.geometry.width));
    }
  }

  lemma ExpandFrame(c: Config, s: State, size: Size)
    ensures OnlySizes(s, Expand(c, s, size))
  {}

  lemma DimensionsFrame(c: Config, s: State, f: Frame)
    ensures OnlySizes(s, Dimensions(c, s, f))
  {
    if Evidence(c, f, c.shrinkConfidence) {
      var size := Size(f.length.value, f.width.value);
      if Expands(s.geometry, size) {
        ExpandFrame(c, s, size);
      } else {
        ShrinkFrame(c, s.(shrinkWindow := LastN(s.shrinkWindow + [Some(size)], c.windowFrames), expansion := ClearExpansion(s.expansion)),
                    Floor(c, f));
      }
    }
  }

  lemma PromotionFrame(c: Config, s: State, f: Frame, continuous: bool)
    ensures var t := Promotion(c, s, f, continuous);
            && t == s.(geometry := t.geometry, promotionSegment := t.promotionSegment, promotionCount := t.promotionCount)
            && t.geometry.frozen == s.geometry.frozen && (s.geometry.formal ==> t.geometry == s.geometry)
            && t.geometry.lifecycle == s.geometry.lifecycle
            && t.geometry.length == s.geometry.length && t.geometry.width == s.geometry.width
  {}

  lemma SegmentFrame(s: State, f: Frame, continuous: bool)
    ensures var t := Segment(s, f, continuous);
            && t.geometry == s.geometry && t.lastStamp == s.lastStamp && t.expansion.segment == f.segment
            && (t.expansion == s.expansion || t.expansion.count == 0)
            && (t.shrinkWindow == s.shrinkWindow || t.shrinkWindow == [])
  {}

  lemma PoisedFrame(c: Config, s: State, f: Frame, continuous: bool)
    ensures var t := Poised(c, s, f, continuous);
            && t.geometry.frozen == s.geometry.frozen && (s.geometry.formal ==> t.geometry.formal)
            && t.geometry.lifecycle == s.geometry.lifecycle && t.lastStamp == s.lastStamp
            && t.geometry.length == s.geometry.length && t.geometry.width == s.geometry.width
            && t.expansion.segment == f.segment
            && (t.expansion == s.expansion || t.expansion.count == 0)
            && (t.shrinkWindow == s.shrinkWindow || t.shrinkWindow == [])
  {
    PromotionFrame(c, s, f, continuous);
    SegmentFrame(Promotion(c, s, f, continuous), f, continuous);
  }

  predicate SameCargo(s: State, f: Frame) {
    f.lifecycle == 0 || f.lifecycle == s.geometry.lifecycle
  }

  /** The sizes of a frozen geometry change only where the dimensions are judged. */
  lemma StepSizes(c: Config, s: State, f: Frame)
    requires ValidConfig(c) && s.geometry.frozen && Advances(s, f) && f.lifecycle != 0 && SameCargo(s, f)
    ensures SizeNow(Judging(c, s, f).geometry) == SizeNow(s.geometry)
    ensures SizeNow(Step(c, s, f).geometry) == SizeNow(Dimensions(c, Judging(c, s, f), f).geometry)
  {
    PoisedFrame(c, Timed(c, s, f), f, Continuous(c, s.lastStamp, f.stamp.value));
  }

  /** An advancing stamp of the same lifecycle: a frozen geometry stays frozen, and formal stays formal. */
  lemma StaysFrozen(c: Config, s: State, f: Frame)
    requires ValidConfig(c) && s.geometry.frozen && Advances(s, f) && SameCargo(s, f)
    ensures var t := Step(c, s, f);
            && t.geometry.frozen && (s.geometry.formal ==> t.geometry.formal)
            && t.geometry.lifecycle == s.geometry.lifecycle && t.lastStamp == f.stamp.value
  {
    if f.lifecycle != 0 {
      var u := Timed(c, s, f);
      var continuous := Continuous(c, s.lastStamp, f.stamp.value);
      PoisedFrame(c, u, f, continuous);
      DimensionsFrame(c, Poised(c, u, f, continuous), f);
    }
  }

  ghost predicate Undisturbed(c: Config, s: State, frames: seq<Frame>) {
    forall k :: 0 <= k < |frames| ==>
      Advances(Continue(c, s, frames[..k]), frames[k]) && SameCargo(s, frames[k])
  }

  lemma {:induction false} StaysFrozenAlong(c: Config, s: State, frames: seq<Frame>)
    requires ValidConfig(c) && s.geometry.frozen && Undisturbed(c, s, frames)
    ensures var t := Continue(c, s, frames);
            && t.geometry.frozen && (s.geometry.formal ==> t.geometry.formal) && t.geometry.lifecycle == s.geometry.lifecycle
  {
    if |frames| > 0 {
      var front, last := frames[..|frames| - 1], frames[|frames| - 1];
      forall k | 0 <= k < |front| ensures Advances(Continue(c, s, front[..k]), front[k]) && SameCargo(s, front[k]) {
        assert front[..k] == frames[..k];
      }
      StaysFrozenAlong(c, s, front);
      StaysFrozen(c, Continue(c, s, front), last);
    }
  }

  /** A frame without full dimension evidence leaves length and width alone. */
  lemma WeakFrameKeepsSize(c: Config, s: State, f: Frame)
    requires ValidConfig(c) && s.geometry.frozen && Advances(s, f) && SameCargo(s, f)
    requires !Evidence(c, f, c.shrinkConfidence)
    ensures Step(c, s, f).geometry.length == s.geometry.length && Step(c, s, f).geometry.width == s.geometry.width
  {
    if f.lifecycle != 0 {
      PoisedFrame(c, Timed(c, s, f), f, Continuous(c, s.lastStamp, f.stamp.value));
    }
  }

  // ---------------------------------------------------------------- windows

  lemma {:induction false} GoodMember<T>(w: seq<Option<T>>, v: T)
    requires v in Good(w)
    ensures Some(v) in w
  {
    var front := w[..|w| - 1];
    if v in Good(front) {
      GoodMember(front, v);
    }
  }

  ghost predicate Capped(w: seq<Option<real>>, cap: real) {
    forall k :: 0 <= k < |w| && w[k].Some? ==> w[k].value <= cap
  }

  lemma MedianCapped(values: seq<real>, cap: real)
    requires cap >= 0.0 && forall v :: v in values ==> v <= cap
    ensures Median(values) <= cap
  {
    if |values| > 0 {
      MedianIsMember(values);
    }
  }

  lemma {:induction false} GoodCapped(w: seq<Option<real>>, cap: real)
    requires Capped(w, cap)
    ensures forall v :: v in Good(w) ==> v <= cap
  {
    forall v | v in Good(w) ensures v <= cap {
      GoodMember(w, v);
    }
  }

  /** Every good entry of the shrink window fits inside the frozen dimensions. */
  ghost predicate Within(w: Window, g: Geometry) {
    forall k :: 0 <= k < |w| && w[k].Some? ==> w[k].value.length <= g.length && w[k].value.width <= g.width
  }

  lemma {:induction false} MedianWithin(w: Window, g: Geometry)
    requires Within(w, g) && g.length >= 0.0 && g.width >= 0.0
    ensures MedianSize(Good(w)).length <= g.length && MedianSize(Good(w)).width <= g.width
  {
    var sizes := Good(w);
    forall k | 0 <= k < |sizes| ensures sizes[k].length <= g.length && sizes[k].width <= g.width {
      GoodMember(w, sizes[k]);
    }
    MedianCapped(Lengths(sizes), g.length);
    MedianCapped(Widths(sizes), g.width);
  }

  lemma PushedWithin(w: Window, entry: Option<Size>, n: nat, g: Geometry)
    requires Within(w, g)
    requires entry.Some? ==> entry.value.length <= g.length && entry.value.width <= g.width
    ensures Within(LastN(w + [entry], n), g)
  {
    var grown := w + [entry];
    assert Within(grown, g);
  }

  // ---------------------------------------------------------------- shrinking

  /** The window as it stands when this frame is judged. */
  function Judged(c: Config, s: State, f: Frame): seq<Size>
    requires f.length.Some? && f.width.Some?
  {
    Good(LastN(s.shrinkWindow + [Some(Size(f.length.value, f.width.value))], c.windowFrames))
  }

  lemma ShrinkIfBounds(c: Config, s: State, floor: Size)
    requires c.maxShrink >= 0.0 && Within(s.shrinkWindow, s.geometry) && s.geometry.length >= 0.0 && s.geometry.width >= 0.0
    ensures var t := ShrinkIf(c, s, floor);
            && s.geometry.length - c.maxShrink <= t.geometry.length <= Max(s.geometry.length, floor.length)
            && s.geometry.width - c.maxShrink <= t.geometry.width <= Max(s.geometry.width, floor.width)
            && (t.geometry.length < s.geometry.length ==> t.geometry.length >= floor.length)
            && (t.geometry.width < s.geometry.width ==> t.geometry.width >= floor.width)
            && (t.geometry != s.geometry ==> |Good(s.shrinkWindow)| >= c.shrinkConfirmFrames && Steady(c, Good(s.shrinkWindow)))
            && Within(t.shrinkWindow, t.geometry)
  {
    MedianWithin(s.shrinkWindow, s.geometry);
    assert s.geometry == s.geometry.(length := s.geometry.length, width := s.geometry.width);
  }

  /** What a dimension step may do: shrink by at most maxShrink, not below the floor; grow as described. */
  ghost predicate Moderate(c: Config, s: State, f: Frame, t: State) {
    && t.geometry.length >= s.geometry.length - c.maxShrink && t.geometry.width >= s.geometry.width - c.maxShrink
    && (t.geometry.length < s.geometry.length ==> t.geometry.length >= Floor(c, f).length)
    && (t.geometry.width < s.geometry.width ==> t.geometry.width >= Floor(c, f).width)
    && (t.geometry.length < s.geometry.length || t.geometry.width < s.geometry.width ==>
          && Evidence(c, f, c.shrinkConfidence)
          && |Judged(c, s, f)| >= c.shrinkConfirmFrames && Steady(c, Judged(c, s, f)))
  }

  ghost predicate Sized(c: Config, s: State) {
    s.geometry.length >= c.minLength && s.geometry.width >= c.minWidth && Within(s.shrinkWindow, s.geometry)
  }

  lemma ShrinkModerate(c: Config, s: State, f: Frame, size: Size)
    requires ValidConfig(c) && Sized(c, s) && Evidence(c, f, c.shrinkConfidence)
    requires size == Size(f.length.value, f.width.value) && !Expands(s.geometry, size)
    ensures Moderate(c, s, f, Shrink(c, s, f, size)) && Sized(c, Shrink(c, s, f, size))
  {
    PushedWithin(s.shrinkWindow, Some(size), c.windowFrames, s.geometry);
    ShrinkIfBounds(c, s.(shrinkWindow := LastN(s.shrinkWindow + [Some(size)], c.windowFrames), expansion := ClearExpansion(s.expansion)),
                   Floor(c, f));
  }

  lemma DimensionsModerate(c: Config, s: State, f: Frame)
    requires ValidConfig(c) && Sized(c, s)
    ensures Moderate(c, s, f, Dimensions(c, s, f)) && Sized(c, Dimensions(c, s, f))
  {
    if !Evidence(c, f, c.shrinkConfidence) {
      PushedWithin(s.shrinkWindow, None, c.windowFrames, s.geometry);
    } else {
      var size := Size(f.length.value, f.width.value);
      if !Expands(s.geometry, size) && (size.length < s.geometry.length || size.width < s.geometry.width) {
        ShrinkModerate(c, s, f, size);
      }
    }
  }

  // ---------------------------------------------------------------- the invariant of every run

  ghost predicate Cautious(c: Config, g: Geometry) {
    && g.bottom.Some? && g.conservative.Some?
    && g.conservative.value <= g.bottom.value - c.margin
    && g.uncertainty >= 0.0
  }

  ghost predicate FrozenOk(c: Config, s: State) {
    && s.geometry.lifecycle != 0 && Cautious(c, s.geometry) && Sized(c, s)
    && (s.geometry.authorization == Formal <==> s.geometry.formal)
  }

  ghost predicate PendingOk(c: Config, s: State) {
    && !s.geometry.formal && s.shrinkWindow == [] && s.expansion.count == 0
    && (s.mode == Some(false) ==> Capped(s.thicknessWindow, c.rules.maxHeight))
  }

  ghost predicate Ok(c: Config, s: State) {
    if s.geometry.frozen then FrozenOk(c, s) else PendingOk(c, s)
  }

  lemma PoseCautious(c: Config, g: Geometry, f: Frame)
    requires ValidConfig(c) && g.bottom.Some? && g.uncertainty >= 0.0
    ensures Cautious(c, Pose(c, g, f))
  {}

  lemma GrantCautious(c: Config, s: State, f: Frame, continuous: bool)
    requires Rooted(c) && Cautious(c, s.geometry)
    requires s.geometry.authorization == Formal <==> s.geometry.formal
    ensures var g := Promotion(c, s, f, continuous).geometry;
            g.bottom == s.geometry.bottom && g.uncertainty >= 0.0 && (g.authorization == Formal <==> g.formal)
  {}

  lemma PoisedOk(c: Config, s: State, f: Frame, continuous: bool)
    requires ValidConfig(c) && Rooted(c) && FrozenOk(c, s)
    ensures FrozenOk(c, Poised(c, s, f, continuous))
  {
    GrantCautious(c, s, f, continuous);
    var t := Segment(Promotion(c, s, f, continuous), f, continuous);
    SegmentFrame(Promotion(c, s, f, continuous), f, continuous);
    PoseCautious(c, t.geometry, f);
    PoisedFrame(c, s, f, continuous);
  }

  lemma FrozenStepOk(c: Config, s: State, f: Frame, continuous: bool)
    requires ValidConfig(c) && Rooted(c) && s.geometry.frozen && FrozenOk(c, s)
    ensures Ok(c, FrozenStep(c, s, f, continuous))
  {
    PoisedOk(c, s, f, continuous);
    PoisedFrame(c, s, f, continuous);
    var t := Poised(c, s, f, continuous);
    DimensionsModerate(c, t, f);
    DimensionsFrame(c, t, f);
  }

  lemma TallyCapped(c: Config, candidates: seq<real>, e: Estimate)
    requires ValidConfig(c) && forall v :: v in candidates ==> v <= c.rules.maxHeight
    requires e.uncertainty > 0.0
    ensures var (n, r) := Tally(c, candidates, false, e);
            r.uncertainty == e.uncertainty && (n > 0 ==> r.upper >= r.height)
  {
    MedianCapped(candidates, c.rules.maxHeight);
  }

  lemma TallyFormal(c: Config, candidates: seq<real>, formal: bool, e: Estimate)
    ensures Tally(c, candidates, formal, e).1.uncertainty == e.uncertainty
  {}

  lemma FreezeOk(c: Config, s: State, f: Frame, formal: bool, confirmed: nat, e: Estimate)
    requires ValidConfig(c) && !s.geometry.frozen && PendingOk(c, s) && s.geometry.lifecycle != 0
    requires f.centre.Some? && f.yaw.Some? && e.uncertainty >= 0.0
    requires !formal && confirmed > 0 ==> e.upper >= e.height
    ensures Ok(c, FreezeIf(c, s, f, formal, confirmed, e))
  {
    var t := FreezeIf(c, s, f, formal, confirmed, e);
    if t.geometry.frozen {
      FrozenAtOnce(c, s.geometry.(valid := false, confirmed := confirmed, lower := e.lower, upper := e.upper), f, formal, e, MedianSize(Good(s.shapeWindow)));
    }
  }

  lemma FrozenAtOnce(c: Config, g: Geometry, f: Frame, formal: bool, e: Estimate, median: Size)
    requires ValidConfig(c) && f.centre.Some? && f.yaw.Some? && e.uncertainty >= 0.0 && (!formal ==> e.upper >= e.height)
    ensures var h := Freeze(c, g, f, formal, e, median);
            && Cautious(c, h) && h.lifecycle == g.lifecycle && (h.authorization == Formal <==> h.formal)
            && h.length >= c.minLength && h.width >= c.minWidth
  {}

  lemma ConfirmOk(c: Config, s: State, f: Frame, formal: bool, e: Estimate)
    requires ValidConfig(c) && !s.geometry.frozen && PendingOk(c, s) && s.geometry.lifecycle != 0
    requires f.centre.Some? && f.yaw.Some? && e.uncertainty >= 0.0 && s.mode == Some(formal)
    requires !formal ==> e.uncertainty > 0.0 && e.height <= c.rules.maxHeight
    ensures Ok(c, Confirm(c, s, f, formal, e))
  {
    var t := s.(thicknessWindow := SetLast(s.thicknessWindow, e.height));
    TallyFormal(c, Good(t.thicknessWindow), formal, e);
    if !formal {
      GoodCapped(t.thicknessWindow, c.rules.maxHeight);
      TallyCapped(c, Good(t.thicknessWindow), e);
    }
    var (n, r) := Tally(c, Good(t.thicknessWindow), formal, e);
    FreezeOk(c, t, f, formal, n, r);
  }

  lemma EstimateOk(c: Config, e: Evidences)
    requires ValidConfig(c) && Rooted(c) && (e.pair.Some? || e.live.Some?)
    ensures Estimated(c, e).uncertainty >= 0.0
    ensures e.pair.None? ==> Estimated(c, e).uncertainty > 0.0 && Estimated(c, e).height <= c.rules.maxHeight
  {}

  lemma WindowsOk(c: Config, s: State, f: Frame)
    requires PendingOk(c, s)
    ensures PendingOk(c, Windows(c, s, f))
    ensures Windows(c, s, f).geometry == s.geometry
  {}

  lemma PendingStepOk(c: Config, s: State, f: Frame)
    requires ValidConfig(c) && Rooted(c) && !s.geometry.frozen && PendingOk(c, s) && f.lifecycle != 0
    ensures Ok(c, PendingStep(c, s, f))
  {
    WindowsOk(c, s, f);
    if Placed(f) {
      var t := Windows(c, s, f);
      var e := Gather(c, f);
      var u := SetMode(t.(geometry := t.geometry.(lifecycle := f.lifecycle, segment := f.segment)), e.pair.Some?);
      if e.pair.Some? || PositiveCandidate(c, f, e) {
        EstimateOk(c, e);
        ConfirmOk(c, u, f, e.pair.Some?, Estimated(c, e));
      }
    }
  }

  lemma StepOk(c: Config, s: State, f: Frame)
    requires ValidConfig(c) && Rooted(c) && Ok(c, s)
    ensures Ok(c, Step(c, s, f))
  {
    if Advances(s, f) {
      var t := Timed(c, s, f);
      if f.lifecycle != 0 {
        var u := if OtherLifecycle(t, f) then INITIAL.(lastStamp := f.stamp.value) else t;
        if u.geometry.frozen {
          FrozenStepOk(c, u, f, Continuous(c, s.lastStamp, f.stamp.value));
        } else {
          PendingStepOk(c, u, f);
        }
      }
    }
  }

  /**
   On every run: while the geometry is frozen its conservative bottom lies at least the margin below its
   bottom, its dimensions are at least the physical minimum, and it is FORMAL exactly when authorised.
   */
  lemma {:induction false} RunOk(c: Config, run: seq<Frame>)
    requires ValidConfig(c) && Rooted(c)
    ensures Ok(c, After(c, run))
  {
    if |run| > 0 {
      RunOk(c, run[..|run| - 1]);
      StepOk(c, After(c, run[..|run| - 1]), run[|run| - 1]);
    }
  }

  /** On every run, a frame of the frozen lifecycle moves the dimensions moderately. */
  lemma {:induction false} RunModerate(c: Config, run: seq<Frame>, f: Frame)
    requires ValidConfig(c) && Rooted(c)
    requires var s := After(c, run); s.geometry.frozen && Advances(s, f) && f.lifecycle == s.geometry.lifecycle
    ensures var s := After(c, run);
            Moderate(c, Judging(c, s, f), f, Step(c, s, f))
  {
    RunOk(c, run);
    var u := Timed(c, After(c, run), f);
    var continuous := Continuous(c, After(c, run).lastStamp, f.stamp.value);
    PoisedOk(c, u, f, continuous);
    DimensionsModerate(c, Poised(c, u, f, continuous), f);
  }

  /**
   A geometry freezes only on a placed frame with a steady shape window and enough confirmed thickness
   candidates, and it is formal exactly when the frame is locked and two full measurements agree.
   */
  lemma FreezeIsConfirmed(c: Config, s: State, f: Frame)
    requires !s.geometry.frozen && PendingStep(c, s, f).geometry.frozen
    ensures var t := PendingStep(c, s, f); var e := Gather(c, f);
            var required := if t.geometry.formal then c.confirmFrames else c.positiveConfirmFrames;
            && Placed(f) && t.geometry.lifecycle == f.lifecycle
            && (t.geometry.formal <==> f.formalLocked && e.pair.Some?)
            && (t.geometry.formal || PositiveCandidate(c, f, e))
            && |Good(t.shapeWindow)| >= required && Steady(c, Good(t.shapeWindow))
            && t.geometry.confirmed >= required && |Good(t.thicknessWindow)| >= required
            && (t.geometry.formal ==> t.geometry.uncertainty <= c.rules.maxUncertainty)
  {
    var t := Windows(c, s, f);
    var e := Gather(c, f);
    var u := SetMode(t.(geometry := t.geometry.(lifecycle := f.lifecycle, segment := f.segment)), e.pair.Some?);
    assert Placed(f) && (e.pair.Some? || PositiveCandidate(c, f, e));
    ConfirmFreezes(c, u, f, e.pair.Some?, Estimated(c, e));
  }

  lemma {:induction false} CountBounded(values: seq<real>, centre: real, tolerance: real)
    ensures CountNear(values, centre, tolerance) <= |values|
  {
    if |values| > 0 {
      CountBounded(values[..|values| - 1], centre, tolerance);
    }
  }

  lemma TallyBounded(c: Config, candidates: seq<real>, formal: bool, e: Estimate)
    ensures Tally(c, candidates, formal, e).0 <= |candidates|
  {
    CountBounded(candidates, Median(candidates), 0.5 * c.rules.disagreement);
  }

  lemma FreezeIfFrozen(c: Config, s: State, f: Frame, formal: bool, confirmed: nat, e: Estimate)
    requires !s.geometry.frozen && f.centre.Some? && f.yaw.Some? && FreezeIf(c, s, f, formal, confirmed, e).geometry.frozen
    ensures var t := FreezeIf(c, s, f, formal, confirmed, e);
            var required := if formal then c.confirmFrames else c.positiveConfirmFrames;
            && t.geometry.formal == formal && t.geometry.lifecycle == s.geometry.lifecycle && t.geometry.uncertainty == e.uncertainty
            && t.shapeWindow == s.shapeWindow && t.thicknessWindow == s.thicknessWindow
            && |Good(s.shapeWindow)| >= required && Steady(c, Good(s.shapeWindow))
            && t.geometry.confirmed == confirmed >= required
  {}

  lemma ConfirmFreezes(c: Config, s: State, f: Frame, formal: bool, e: Estimate)
    requires !s.geometry.frozen && f.centre.Some? && f.yaw.Some? && Confirm(c, s, f, formal, e).geometry.frozen
    ensures var t := Confirm(c, s, f, formal, e);
            var required := if formal then c.confirmFrames else c.positiveConfirmFrames;
            && t.geometry.formal == formal && t.geometry.lifecycle == s.geometry.lifecycle && t.geometry.uncertainty == e.uncertainty
            && |Good(t.shapeWindow)| >= required && Steady(c, Good(t.shapeWindow))
            && t.geometry.confirmed >= required && |Good(t.thicknessWindow)| >= required
  {
    var u := s.(thicknessWindow := SetLast(s.thicknessWindow, e.height));
    var (confirmed, r) := Tally(c, Good(u.thicknessWindow), formal, e);
    TallyFormal(c, Good(u.thicknessWindow), formal, e);
    TallyBounded(c, Good(u.thicknessWindow), formal, e);
    FreezeIfFrozen(c, u, f, formal, confirmed, r);
  }
}
