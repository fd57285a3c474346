/**
 Promotion of a frozen positive-only geometry: formal authority is earned by an unbroken chain of
 locked, well-evidenced frames of one lifecycle and segment, each with two agreeing full thickness
 measurements.
 */
module GeometryPromotion {
  import opened Prelude
  import opened GeometryThickness
  import opened GeometryFusion
  import opened GeometryRuns
  import opened GeometryStreaks

  ghost function Promoting(c: Config, run: seq<Frame>, lifecycle: nat, segment: nat): nat -> bool {
    (k: nat) => k < |run| && run[k].lifecycle == lifecycle && run[k].segment == segment && Promotes(c, run[k])
  }

  ghost predicate EarnedBy(c: Config, run: seq<Frame>, ks: seq<nat>, s: State) {
    |ks| == s.promotionCount && Chain(c, run, ks, Promoting(c, run, s.geometry.lifecycle, s.promotionSegment))
  }

  /** Until the geometry is formal its promotion count is the length of a chain, shorter than confirmFrames. */
  ghost predicate Earned(c: Config, run: seq<Frame>, s: State) {
    && (!s.geometry.frozen ==> s.promotionCount == 0)
    && (s.promotionCount > 0 && !s.geometry.formal ==>
          s.lastStamp > 0.0 && s.promotionCount < c.confirmFrames && exists ks: seq<nat> :: EarnedBy(c, run, ks, s))
  }

  /** The chain this frame completes, if it promotes. */
  lemma ExtendedChain(c: Config, run: seq<Frame>, f: Frame, s: State) returns (ks: seq<nat>)
    requires ValidConfig(c) && Reaches(c, run, f, s) && !s.geometry.formal && Earned(c, run, s) && Promotes(c, f)
    ensures var continuous := Continuous(c, s.lastStamp, f.stamp.value);
            |ks| == 1 + (if f.segment != s.promotionSegment || !continuous then 0 else s.promotionCount)
    ensures ks[|ks| - 1] == |run| && Chain(c, run + [f], ks, Promoting(c, run + [f], f.lifecycle, f.segment))
  {
    var counts := Promoting(c, run + [f], f.lifecycle, f.segment);
    assert counts(|run|);
    if f.segment == s.promotionSegment && Continuous(c, s.lastStamp, f.stamp.value) && s.promotionCount > 0 {
      var past: seq<nat> :| EarnedBy(c, run, past, s);
      FollowsNow(c, run, f);
      ChainGrows(c, run, f, past, Promoting(c, run, f.lifecycle, f.segment), counts);
      ks := past + [|run|];
    } else {
      ChainStarts(c, run, f, counts);
      ks := [|run|];
    }
  }

  lemma SegmentKeepsCount(s: State, f: Frame, continuous: bool)
    ensures var t := Segment(s, f, continuous);
            t.promotionCount == s.promotionCount && t.promotionSegment == s.promotionSegment && t.geometry == s.geometry
  {}

  lemma FrozenKeepsCount(c: Config, s: State, f: Frame, continuous: bool)
    ensures var t, u := FrozenStep(c, s, f, continuous), Promotion(c, s, f, continuous);
            && t.promotionCount == u.promotionCount && t.promotionSegment == u.promotionSegment
            && t.geometry.formal == u.geometry.formal && t.geometry.frozen == u.geometry.frozen
            && t.geometry.lifecycle == u.geometry.lifecycle
  {
    SegmentKeepsCount(Promotion(c, s, f, continuous), f, continuous);
    DimensionsFrame(c, Poised(c, s, f, continuous), f);
  }

  lemma PendingKeepsCount(c: Config, s: State, f: Frame)
    ensures PendingStep(c, s, f).promotionCount == s.promotionCount
  {}

  /** What a frame does to the count of a geometry that is not formal yet. */
  lemma PromotionCounts(c: Config, s: State, f: Frame, continuous: bool)
    requires !Promotion(c, s, f, continuous).geometry.formal
    ensures var t := Promotion(c, s, f, continuous);
            && !s.geometry.formal && (!Promotes(c, f) ==> t.promotionCount == 0)
            && (Promotes(c, f) ==>
                  && t.promotionCount == 1 + (if f.segment != s.promotionSegment || !continuous then 0 else s.promotionCount)
                  && t.promotionCount < c.confirmFrames && t.promotionSegment == f.segment)
  {}

  lemma FrozenEarned(c: Config, run: seq<Frame>, f: Frame, s: State)
    requires ValidConfig(c) && Reaches(c, run, f, s) && Earned(c, run, s)
    ensures Earned(c, run + [f], Step(c, s, f))
  {
    var u := Timed(c, s, f);
    var t := Step(c, s, f);
    var continuous := Continuous(c, s.lastStamp, f.stamp.value);
    StaysFrozen(c, s, f);
    FrozenKeepsCount(c, u, f, continuous);
    if t.promotionCount > 0 && !t.geometry.formal {
      PromotionCounts(c, u, f, continuous);
      var ks := ExtendedChain(c, run, f, s);
      assert EarnedBy(c, run + [f], ks, t);
    }
  }

  lemma {:induction false} SilentEarned(c: Config, run: seq<Frame>, f: Frame, s: State)
    requires ValidConfig(c) && s == After(c, run) && Advances(s, f) && f.lifecycle == 0 && Earned(c, run, s)
    ensures Earned(c, run + [f], Step(c, s, f))
  {
    if s.geometry.frozen {
      SilentStep(c, s, f);
      if s.promotionCount > 0 && !s.geometry.formal {
        var lifecycle, segment := s.geometry.lifecycle, s.promotionSegment;
        var ks: seq<nat> :| EarnedBy(c, run, ks, s);
        ChainRests(c, run, f, ks, Promoting(c, run, lifecycle, segment), Promoting(c, run + [f], lifecycle, segment));
        assert EarnedBy(c, run + [f], ks, Step(c, s, f));
      }
    }
  }

  lemma {:induction false} StepEarned(c: Config, run: seq<Frame>, f: Frame, s: State)
    requires ValidConfig(c) && s == After(c, run) && Earned(c, run, s) && (s.geometry.frozen ==> s.geometry.lifecycle != 0)
    ensures Earned(c, run + [f], Step(c, s, f))
  {
    if Advances(s, f) {
      if f.lifecycle == 0 {
        SilentEarned(c, run, f, s);
      } else if Reaches(c, run, f, s) {
        FrozenEarned(c, run, f, s);
      } else {
        var t := Timed(c, s, f);
        PendingKeepsCount(c, if OtherLifecycle(t, f) then INITIAL.(lastStamp := f.stamp.value) else t, f);
      }
    }
  }

  lemma {:induction false} RunEarned(c: Config, run: seq<Frame>)
    requires ValidConfig(c)
    ensures Earned(c, run, After(c, run))
  {
    if |run| > 0 {
      var front, f := run[..|run| - 1], run[|run| - 1];
      assert front + [f] == run;
      RunEarned(c, front);
      RunLifecycle(c, front);
      StepEarned(c, front, f, After(c, front));
    }
  }

  /**
   On every run, a frame that makes a frozen geometry formal completes an unbroken chain of exactly
   confirmFrames promoting frames of its lifecycle and segment: locked, placed, fully evidenced, with
   two agreeing full measurements whose fused uncertainty is small enough.
   */
  lemma PromotionIsEarned(c: Config, run: seq<Frame>, f: Frame) returns (ks: seq<nat>)
    requires ValidConfig(c) && Reaches(c, run, f, After(c, run))
    requires !After(c, run).geometry.formal && Step(c, After(c, run), f).geometry.formal
    ensures |ks| == c.confirmFrames && ks[|ks| - 1] == |run|
    ensures Chain(c, run + [f], ks, Promoting(c, run + [f], f.lifecycle, f.segment))
  {
    var s := After(c, run);
    RunEarned(c, run);
    FrozenKeepsCount(c, Timed(c, s, f), f, Continuous(c, s.lastStamp, f.stamp.value));
    ks := ExtendedChain(c, run, f, s);
  }

  /** Late by more than the observation gap, a frame leaves a promotion count of two or more alone if and only if it is silent. */
  lemma GapEndsChain(c: Config, s: State, f: Frame)
    requires ValidConfig(c) && s.geometry.frozen && !s.geometry.formal && Advances(s, f) && SameCargo(s, f)
    requires s.promotionCount > 1 && s.lastStamp > 0.0 && f.stamp.value - s.lastStamp > c.maxGap
    ensures Step(c, s, f).promotionCount == s.promotionCount <==> f.lifecycle == 0
  {
    if f.lifecycle != 0 {
      FrozenKeepsCount(c, Timed(c, s, f), f, false);
    } else {
      SilentStep(c, s, f);
    }
  }
}
