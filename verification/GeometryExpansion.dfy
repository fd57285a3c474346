/**
 Expansion of frozen dimensions without the immediate mode: every frame of the confirming chain
 measured at least the dimension that is adopted.
 */
module GeometryExpansion {
  import opened Prelude
  import opened GeometryThickness
  import opened GeometryFusion
  import opened GeometryRuns
  import opened GeometryStreaks

  /** A well-evidenced frame of lifecycle and segment that, over the frozen base, measures at least the pending size. */
  ghost predicate Backs(c: Config, f: Frame, lifecycle: nat, segment: nat, base: Size, pending: Size) {
    && Evidence(c, f, c.expandConfidence) && Evidence(c, f, c.shrinkConfidence)
    && f.lifecycle == lifecycle && f.segment == segment
    && Max(base.length, f.length.value) >= pending.length
    && Max(base.width, f.width.value) >= pending.width
  }

  ghost function Backing(c: Config, run: seq<Frame>, lifecycle: nat, segment: nat, base: Size, pending: Size): nat -> bool {
    (k: nat) => k < |run| && Backs(c, run[k], lifecycle, segment, base, pending)
  }

  ghost predicate EarnedBy(c: Config, run: seq<Frame>, ks: seq<nat>, s: State) {
    && |ks| == s.expansion.count
    && Chain(c, run, ks, Backing(c, run, s.geometry.lifecycle, s.expansion.segment, SizeNow(s.geometry), s.expansion.pending))
  }

  /** The expansion count is the length of a chain of frames that back the pending size, shorter than expandConfirmFrames. */
  ghost predicate Earned(c: Config, run: seq<Frame>, s: State) {
    s.expansion.count > 0 ==>
      && s.geometry.frozen && s.lastStamp > 0.0 && s.expansion.count < c.expandConfirmFrames
      && exists ks: seq<nat> :: EarnedBy(c, run, ks, s)
  }

  // ---------------------------------------------------------------- what one frame does to the count

  /** The pending expansion once a new segment or a gap has dropped it. */
  function Ready(e: Expansion, f: Frame, continuous: bool): Expansion {
    if f.segment != e.segment || !continuous then Expansion(0, f.segment, NO_SIZE) else e
  }

  lemma ReadyPoised(c: Config, s: State, f: Frame, continuous: bool)
    ensures Poised(c, s, f, continuous).expansion == Ready(s.expansion, f, continuous)
  {
    PromotionFrame(c, s, f, continuous);
  }

  lemma ShrinkKeepsExpansion(c: Config, s: State, floor: Size)
    ensures ShrinkIf(c, s, floor).expansion == s.expansion
  {}

  /** A dimension step drops the chain, or extends it by this frame and keeps the sizes. */
  lemma DimensionsCount(c: Config, s: State, f: Frame)
    ensures var t := Dimensions(c, s, f);
            || t.expansion.count == 0
            || (&& Evidence(c, f, c.expandConfidence) && Evidence(c, f, c.shrinkConfidence)
                && t.geometry == s.geometry && t.expansion.count == s.expansion.count + 1 < c.expandConfirmFrames
                && t.expansion.segment == s.expansion.segment
                && t.expansion.pending == Supported(s.expansion, Larger(s.geometry, Measured(f))))
  {
    if Evidence(c, f, c.shrinkConfidence) {
      var size := Size(f.length.value, f.width.value);
      if !Expands(s.geometry, size) {
        ShrinkKeepsExpansion(c, s.(shrinkWindow := LastN(s.shrinkWindow + [Some(size)], c.windowFrames), expansion := ClearExpansion(s.expansion)),
                             Floor(c, f));
      }
    }
  }

  lemma FrozenCount(c: Config, s: State, f: Frame, continuous: bool)
    ensures var t, e := FrozenStep(c, s, f, continuous), Ready(s.expansion, f, continuous);
            || t.expansion.count == 0
            || (&& Evidence(c, f, c.expandConfidence) && Evidence(c, f, c.shrinkConfidence)
                && SizeNow(t.geometry) == SizeNow(s.geometry) && t.expansion.count == e.count + 1 < c.expandConfirmFrames
                && t.expansion.segment == f.segment
                && t.expansion.pending == Supported(e, Larger(s.geometry, Measured(f))))
  {
    ReadyPoised(c, s, f, continuous);
    PoisedFrame(c, s, f, continuous);
    DimensionsCount(c, Poised(c, s, f, continuous), f);
  }

  lemma PendingKeepsExpansion(c: Config, s: State, f: Frame)
    ensures PendingStep(c, s, f).expansion.count == s.expansion.count
  {}

  // ---------------------------------------------------------------- the chain behind the count

  /** The chain that this frame extends or starts. */
  lemma SupportedChain(c: Config, run: seq<Frame>, f: Frame, s: State) returns (ks: seq<nat>)
    requires ValidConfig(c) && Reaches(c, run, f, s) && Earned(c, run, s)
    requires Evidence(c, f, c.expandConfidence) && Evidence(c, f, c.shrinkConfidence)
    ensures var e := Ready(s.expansion, f, Continuous(c, s.lastStamp, f.stamp.value));
            && |ks| == e.count + 1 && ks[|ks| - 1] == |run|
            && Chain(c, run + [f], ks, Backing(c, run + [f], f.lifecycle, f.segment, SizeNow(s.geometry),
                                               Supported(e, Larger(s.geometry, Measured(f)))))
  {
    var continuous := Continuous(c, s.lastStamp, f.stamp.value);
    var least := Supported(Ready(s.expansion, f, continuous), Larger(s.geometry, Measured(f)));
    var counts := Backing(c, run + [f], f.lifecycle, f.segment, SizeNow(s.geometry), least);
    assert counts(|run|);
    if f.segment == s.expansion.segment && continuous && s.expansion.count > 0 {
      var past: seq<nat> :| EarnedBy(c, run, past, s);
      FollowsNow(c, run, f);
      ChainGrows(c, run, f, past, Backing(c, run, f.lifecycle, f.segment, SizeNow(s.geometry), s.expansion.pending), counts);
      ks := past + [|run|];
    } else {
      ChainStarts(c, run, f, counts);
      ks := [|run|];
    }
  }

  lemma FrozenEarned(c: Config, run: seq<Frame>, f: Frame, s: State)
    requires ValidConfig(c) && Reaches(c, run, f, s) && Earned(c, run, s)
    ensures Earned(c, run + [f], Step(c, s, f))
  {
    var t := Step(c, s, f);
    StaysFrozen(c, s, f);
    FrozenCount(c, Timed(c, s, f), f, Continuous(c, s.lastStamp, f.stamp.value));
    if t.expansion.count > 0 {
      var ks := SupportedChain(c, run, f, s);
      assert EarnedBy(c, run + [f], ks, t);
    }
  }

  lemma {:induction false} SilentEarned(c: Config, run: seq<Frame>, f: Frame, s: State)
    requires ValidConfig(c) && s == After(c, run) && Advances(s, f) && f.lifecycle == 0 && Earned(c, run, s)
    ensures Earned(c, run + [f], Step(c, s, f))
  {
    if s.expansion.count > 0 {
      SilentStep(c, s, f);
      var ks: seq<nat> :| EarnedBy(c, run, ks, s);
      var lifecycle, segment, base, pending := s.geometry.lifecycle, s.expansion.segment, SizeNow(s.geometry), s.expansion.pending;
      ChainRests(c, run, f, ks, Backing(c, run, lifecycle, segment, base, pending), Backing(c, run + [f], lifecycle, segment, base, pending));
      assert EarnedBy(c, run + [f], ks, Step(c, s, f));
    }
  }

  lemma {:induction false} StepEarned(c: Config, run: seq<Frame>, f: Frame, s: State)
    requires ValidConfig(c) && s == After(c, run) && Earned(c, run, s) && (s.geometry.frozen ==> s.geometry.lifecycle != 0)
    ensures Earned(c, run + [f], Step(c, s, f))
  {
    if Advances(s, f) {
      if f.lifecycle == 0 {
        SilentEarned(c, run, f, s);
      } else if Reaches(c, run, f, s) {
        FrozenEarned(c, run, f, s);
      } else {
        var t := Timed(c, s, f);
        PendingKeepsExpansion(c, if OtherLifecycle(t, f) then INITIAL.(lastStamp := f.stamp.value) else t, f);
      }
    }
  }

  lemma {:induction false} RunEarned(c: Config, run: seq<Frame>)
    requires ValidConfig(c)
    ensures Earned(c, run, After(c, run))
  {
    if |run| > 0 {
      var front, f := run[..|run| - 1], run[|run| - 1];
      assert front + [f] == run;
      RunEarned(c, front);
      RunLifecycle(c, front);
      StepEarned(c, front, f, After(c, front));
    }
  }

  // ---------------------------------------------------------------- how a dimension may grow

  predicate Grows(g: Geometry, h: Geometry) { h.length > g.length || h.width > g.width }

  /** The frame completes the pending expansion. */
  predicate Confirms(c: Config, s: State, f: Frame) {
    && Evidence(c, f, c.expandConfidence) && Evidence(c, f, c.shrinkConfidence)
    && Expands(s.geometry, Measured(f)) && s.expansion.count + 1 >= c.expandConfirmFrames
  }

  /** The frame spends a confirmed steady window on a shrink step although its floor exceeds a frozen dimension. */
  predicate Lifts(c: Config, s: State, f: Frame) {
    && Evidence(c, f, c.shrinkConfidence) && Expands(s.geometry, Floor(c, f))
    && !Expands(s.geometry, Measured(f)) && Measured(f) != SizeNow(s.geometry)
    && |Judged(c, s, f)| >= c.shrinkConfirmFrames && Steady(c, Judged(c, s, f))
  }

  lemma ShrinkGrowth(c: Config, s: State, f: Frame)
    requires ValidConfig(c) && Sized(c, s) && Evidence(c, f, c.shrinkConfidence)
    requires !Expands(s.geometry, Measured(f)) && Measured(f) != SizeNow(s.geometry)
    ensures Grows(s.geometry, Shrink(c, s, f, Measured(f)).geometry) <==> Lifts(c, s, f)
  {
    PushedWithin(s.shrinkWindow, Some(Measured(f)), c.windowFrames, s.geometry);
    ShrinkIfBounds(c, s.(shrinkWindow := LastN(s.shrinkWindow + [Some(Measured(f))], c.windowFrames), expansion := ClearExpansion(s.expansion)),
                   Floor(c, f));
  }

  lemma ExpandGrowth(c: Config, s: State, f: Frame)
    requires ValidConfig(c) && !c.immediateExpand && Evidence(c, f, c.shrinkConfidence) && Expands(s.geometry, Measured(f))
    ensures var t := Dimensions(c, s, f);
            if Confirms(c, s, f) then SizeNow(t.geometry) == Larger(s.geometry, Supported(s.expansion, Larger(s.geometry, Measured(f))))
            else t.geometry == s.geometry
  {}

  /** Outside the immediate mode a dimension grows without a confirmed expansion if and only if a shrink step lifts it. */
  lemma GrowthCases(c: Config, s: State, f: Frame)
    requires ValidConfig(c) && !c.immediateExpand && Sized(c, s)
    ensures Grows(s.geometry, Dimensions(c, s, f).geometry) && !Confirms(c, s, f) <==> Lifts(c, s, f)
    ensures Confirms(c, s, f) ==>
              SizeNow(Dimensions(c, s, f).geometry) == Larger(s.geometry, Supported(s.expansion, Larger(s.geometry, Measured(f))))
  {
    if Evidence(c, f, c.shrinkConfidence) {
      if Expands(s.geometry, Measured(f)) {
        ExpandGrowth(c, s, f);
      } else if Measured(f) != SizeNow(s.geometry) {
        ShrinkGrowth(c, s, f);
      }
    }
  }

  /** A frame whose static lower bounds and physical minimum fit the frozen dimensions lifts nothing. */
  lemma CoveredFloorLiftsNothing(c: Config, s: State, f: Frame)
    requires f.stamp.Some? && !Expands(s.geometry, Floor(c, f))
    ensures !Lifts(c, Judging(c, s, f), f)
  {
    PoisedFrame(c, Timed(c, s, f), f, Continuous(c, s.lastStamp, f.stamp.value));
  }

  ghost predicate MeasuredAtLeast(run: seq<Frame>, ks: seq<nat>, before: Size, adopted: Size) {
    forall i :: 0 <= i < |ks| ==>
      && ks[i] < |run| && run[ks[i]].length.Some? && run[ks[i]].width.Some?
      && (adopted.length > before.length ==> run[ks[i]].length.value >= adopted.length)
      && (adopted.width > before.width ==> run[ks[i]].width.value >= adopted.width)
  }

  /** A well-evidenced frame of lifecycle and segment. */
  ghost function Evidenced(c: Config, run: seq<Frame>, lifecycle: nat, segment: nat): nat -> bool {
    (k: nat) => && k < |run| && run[k].lifecycle == lifecycle && run[k].segment == segment
                && Evidence(c, run[k], c.expandConfidence) && Evidence(c, run[k], c.shrinkConfidence)
  }

  lemma ChainMeasures(c: Config, run: seq<Frame>, ks: seq<nat>, lifecycle: nat, segment: nat, g: Geometry, pending: Size)
    requires Chain(c, run, ks, Backing(c, run, lifecycle, segment, SizeNow(g), pending))
    ensures MeasuredAtLeast(run, ks, SizeNow(g), Larger(g, pending))
    ensures Chain(c, run, ks, Evidenced(c, run, lifecycle, segment))
  {
    var counts := Backing(c, run, lifecycle, segment, SizeNow(g), pending);
    forall i | 0 <= i < |ks|
      ensures ks[i] < |run| && run[ks[i]].length.Some? && run[ks[i]].width.Some?
      ensures Larger(g, pending).length > g.length ==> run[ks[i]].length.value >= Larger(g, pending).length
      ensures Larger(g, pending).width > g.width ==> run[ks[i]].width.value >= Larger(g, pending).width
      ensures Evidenced(c, run, lifecycle, segment)(ks[i])
    {
      assert counts(ks[i]);
    }
  }

  /**
   On every run without immediate expansion, a frame of the frozen lifecycle that enlarges a dimension
   other than by lifting it completes an unbroken chain of exactly expandConfirmFrames well-evidenced
   frames of its lifecycle and segment, each of which measured every enlarged dimension at least as
   large as the value adopted.
   */
  lemma ExpansionIsBacked(c: Config, run: seq<Frame>, f: Frame) returns (ks: seq<nat>)
    requires ValidConfig(c) && Rooted(c) && !c.immediateExpand && Reaches(c, run, f, After(c, run))
    requires Grows(After(c, run).geometry, Step(c, After(c, run), f).geometry) && !Lifts(c, Judging(c, After(c, run), f), f)
    ensures |ks| == c.expandConfirmFrames && ks[|ks| - 1] == |run|
    ensures Chain(c, run + [f], ks, Evidenced(c, run + [f], f.lifecycle, f.segment))
    ensures MeasuredAtLeast(run + [f], ks, SizeNow(After(c, run).geometry), SizeNow(Step(c, After(c, run), f).geometry))
  {
    var s := After(c, run);
    var u := Timed(c, s, f);
    var continuous := Continuous(c, s.lastStamp, f.stamp.value);
    RunOk(c, run);
    RunEarned(c, run);
    PoisedOk(c, u, f, continuous);
    PoisedFrame(c, u, f, continuous);
    ReadyPoised(c, u, f, continuous);
    GrowthCases(c, Judging(c, s, f), f);
    ks := SupportedChain(c, run, f, s);
    ChainMeasures(c, run + [f], ks, f.lifecycle, f.segment, s.geometry,
                  Supported(Ready(s.expansion, f, continuous), Larger(s.geometry, Measured(f))));
  }

  /** On every run the only other growth is a lift, and a lift always grows. */
  lemma {:induction false} LiftsExactly(c: Config, run: seq<Frame>, f: Frame)
    requires ValidConfig(c) && Rooted(c) && !c.immediateExpand && Reaches(c, run, f, After(c, run))
    ensures var s := After(c, run); var j := Judging(c, s, f);
            Grows(s.geometry, Step(c, s, f).geometry) && !Confirms(c, j, f) <==> Lifts(c, j, f)
  {
    var s := After(c, run);
    RunOk(c, run);
    PoisedOk(c, Timed(c, s, f), f, Continuous(c, s.lastStamp, f.stamp.value));
    StepSizes(c, s, f);
    GrowthCases(c, Judging(c, s, f), f);
  }

  /** Late by more than the observation gap, a frame leaves a pending expansion of two or more alone if and only if it is silent. */
  lemma GapEndsExpansion(c: Config, s: State, f: Frame)
    requires ValidConfig(c) && s.geometry.frozen && Advances(s, f) && SameCargo(s, f)
    requires s.expansion.count > 1 && s.lastStamp > 0.0 && f.stamp.value - s.lastStamp > c.maxGap
    ensures Step(c, s, f).expansion == s.expansion <==> f.lifecycle == 0
  {
    if f.lifecycle != 0 {
      FrozenCount(c, Timed(c, s, f), f, false);
    } else {
      SilentStep(c, s, f);
    }
  }
}
