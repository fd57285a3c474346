/**
 What the geometry estimator owes its evidence: enough consecutive frames of one cargo and segment do
 freeze the geometry, promote it, enlarge it and shrink it, and by how much.
 */
module GeometryProgress {
  import opened Prelude
  import opened GeometryThickness
  import opened GeometryFusion
  import opened GeometryRuns
  import opened GeometryStreaks
  import opened GeometryExpansion
  import GeometryPromotion
  import opened GeometryWindows

  /** Advancing frames that are silent or of one lifecycle and segment, none of these late behind its predecessor. */
  ghost predicate Paced(c: Config, s: State, fs: seq<Frame>, lifecycle: nat, segment: nat) {
    forall i :: 0 <= i < |fs| ==> Due(c, s, fs, i) && (fs[i].lifecycle == 0 || (fs[i].lifecycle == lifecycle && fs[i].segment == segment))
  }

  ghost predicate Due(c: Config, s: State, fs: seq<Frame>, i: nat)
    requires i < |fs|
  {
    if i == 0 then Advances(s, fs[i])
    else
      && fs[i - 1].stamp.Some? && fs[i].stamp.Some? && 0.0 < fs[i - 1].stamp.value < fs[i].stamp.value
      && (fs[i].lifecycle != 0 ==> fs[i].stamp.value - fs[i - 1].stamp.value <= c.maxGap)
  }

  /** The frames of the cargo among fs. */
  function Heard(fs: seq<Frame>): seq<Frame> {
    if |fs| == 0 then []
    else if fs[|fs| - 1].lifecycle == 0 then Heard(fs[..|fs| - 1])
    else Heard(fs[..|fs| - 1]) + [fs[|fs| - 1]]
  }

  lemma PacedFront(c: Config, s: State, fs: seq<Frame>, lifecycle: nat, segment: nat)
    requires |fs| > 0 && Paced(c, s, fs, lifecycle, segment)
    ensures Paced(c, s, fs[..|fs| - 1], lifecycle, segment) && Due(c, s, fs, |fs| - 1)
  {
    var front := fs[..|fs| - 1];
    forall i | 0 <= i < |front| ensures Due(c, s, front, i) && (front[i].lifecycle == 0 || (front[i].lifecycle == lifecycle && front[i].segment == segment)) {
      assert Due(c, s, fs, i);
    }
  }

  /** The clock shows the last of the frames. */
  ghost predicate Reached(s: State, fs: seq<Frame>, t: State) {
    if |fs| == 0 then t == s else fs[|fs| - 1].stamp.Some? && t.lastStamp == fs[|fs| - 1].stamp.value > 0.0
  }

  /** A frozen geometry that the frames find and leave frozen, of one lifecycle. */
  ghost predicate Along(c: Config, s: State, fs: seq<Frame>, t: State) {
    && t == Continue(c, s, fs) && Reached(s, fs, t)
    && t.geometry.frozen && t.geometry.lifecycle == s.geometry.lifecycle && (s.geometry.formal ==> t.geometry.formal)
  }

  lemma NextDue(c: Config, s: State, fs: seq<Frame>, t: State, f: Frame)
    requires |fs| > 0 && f == fs[|fs| - 1] && Due(c, s, fs, |fs| - 1) && Reached(s, fs[..|fs| - 1], t)
    ensures Advances(t, f) && (|fs| > 1 && f.lifecycle != 0 ==> Continuous(c, t.lastStamp, f.stamp.value))
  {}

  lemma {:induction false} StaysAlong(c: Config, s: State, fs: seq<Frame>, segment: nat)
    requires ValidConfig(c) && s.geometry.frozen && Paced(c, s, fs, s.geometry.lifecycle, segment)
    ensures Along(c, s, fs, Continue(c, s, fs))
  {
    if |fs| > 0 {
      var front, f := fs[..|fs| - 1], fs[|fs| - 1];
      PacedFront(c, s, fs, s.geometry.lifecycle, segment);
      StaysAlong(c, s, front, segment);
      NextDue(c, s, fs, Continue(c, s, front), f);
      StaysFrozen(c, Continue(c, s, front), f);
    }
  }

  // ---------------------------------------------------------------- promotion

  ghost predicate AllPromote(c: Config, fs: seq<Frame>) {
    forall i :: 0 <= i < |fs| && fs[i].lifecycle != 0 ==> Promotes(c, fs[i])
  }

  /** Formal, or on the way to it by at least n frames of the segment. */
  ghost predicate Counted(c: Config, t: State, n: nat, segment: nat) {
    t.geometry.formal || (n > 0 ==> n <= t.promotionCount < c.confirmFrames && t.promotionSegment == segment)
  }

  lemma PromotionStep(c: Config, s: State, f: Frame, n: nat, segment: nat)
    requires ValidConfig(c) && s.geometry.frozen && Advances(s, f) && f.lifecycle != 0 && f.lifecycle == s.geometry.lifecycle
    requires f.segment == segment && Promotes(c, f) && Counted(c, s, n, segment)
    requires n > 0 ==> Continuous(c, s.lastStamp, f.stamp.value)
    ensures Counted(c, Step(c, s, f), n + 1, segment)
  {
    var u, continuous := Timed(c, s, f), Continuous(c, s.lastStamp, f.stamp.value);
    GeometryPromotion.FrozenKeepsCount(c, u, f, continuous);
    PromotionFrame(c, u, f, continuous);
    if !Promotion(c, u, f, continuous).geometry.formal {
      GeometryPromotion.PromotionCounts(c, u, f, continuous);
    }
  }

  lemma {:induction false} PromotionCounted(c: Config, s: State, fs: seq<Frame>, segment: nat)
    requires ValidConfig(c) && s.geometry.frozen && Paced(c, s, fs, s.geometry.lifecycle, segment) && AllPromote(c, fs)
    ensures Counted(c, Continue(c, s, fs), |Heard(fs)|, segment)
  {
    if |fs| > 0 {
      var front, f := fs[..|fs| - 1], fs[|fs| - 1];
      PacedFront(c, s, fs, s.geometry.lifecycle, segment);
      PromotionCounted(c, s, front, segment);
      StaysAlong(c, s, front, segment);
      var t := Continue(c, s, front);
      NextDue(c, s, fs, t, f);
      if f.lifecycle == 0 {
        SilentStep(c, t, f);
      } else {
        PromotionStep(c, t, f, |Heard(front)|, segment);
      }
    }
  }

  /** Whatever came before: confirmFrames promoting frames of the frozen cargo and one segment make it formal. */
  lemma {:induction false} EnoughPromote(c: Config, s: State, fs: seq<Frame>, segment: nat)
    requires ValidConfig(c) && s.geometry.frozen && Paced(c, s, fs, s.geometry.lifecycle, segment) && AllPromote(c, fs)
    requires |Heard(fs)| >= c.confirmFrames
    ensures Continue(c, s, fs).geometry.formal
  {
    PromotionCounted(c, s, fs, segment);
  }

  // ---------------------------------------------------------------- expansion

  predicate AtLeast(x: Size, y: Size) { x.length >= y.length && x.width >= y.width }

  /** A well-evidenced frame that exceeds the frozen size, and together with it covers the target. */
  predicate Exceeds(c: Config, f: Frame, base: Size, target: Size) {
    && Evidence(c, f, c.expandConfidence) && Evidence(c, f, c.shrinkConfidence)
    && (f.length.value > base.length || f.width.value > base.width)
    && (f.length.value >= target.length || base.length >= target.length)
    && (f.width.value >= target.width || base.width >= target.width)
  }

  ghost predicate AllExceed(c: Config, fs: seq<Frame>, base: Size, target: Size) {
    forall i :: 0 <= i < |fs| && fs[i].lifecycle != 0 ==> Exceeds(c, fs[i], base, target)
  }

  ghost predicate Growing(c: Config, s: State, t: State, n: nat, segment: nat, target: Size) {
    && SizeNow(t.geometry) == SizeNow(s.geometry)
    && (n == 0 ==> t.expansion == s.expansion)
    && (n > 0 ==> t.expansion.count == n && t.expansion.segment == segment && AtLeast(t.expansion.pending, target))
  }

  lemma ExpandStep(c: Config, s: State, t: State, f: Frame, n: nat, segment: nat, target: Size)
    requires ValidConfig(c) && !c.immediateExpand && n < c.expandConfirmFrames
    requires s.expansion.count == 0 || s.expansion.segment != segment
    requires t.geometry.frozen && Advances(t, f) && f.lifecycle != 0 && f.lifecycle == t.geometry.lifecycle && f.segment == segment
    requires Growing(c, s, t, n, segment, target) && (n > 0 ==> Continuous(c, t.lastStamp, f.stamp.value))
    requires Exceeds(c, f, SizeNow(s.geometry), target)
    ensures n + 1 < c.expandConfirmFrames ==> Growing(c, s, Step(c, t, f), n + 1, segment, target)
    ensures n + 1 == c.expandConfirmFrames ==> AtLeast(SizeNow(Step(c, t, f).geometry), target)
  {
    var u, continuous := Timed(c, t, f), Continuous(c, t.lastStamp, f.stamp.value);
    var j := Judging(c, t, f);
    StepSizes(c, t, f);
    ReadyPoised(c, u, f, continuous);
    assert Dimensions(c, j, f) == Expand(c, j, Measured(f));
  }

  lemma {:induction false} ExpansionCounted(c: Config, s: State, fs: seq<Frame>, segment: nat, target: Size)
    requires ValidConfig(c) && !c.immediateExpand && s.geometry.frozen && Paced(c, s, fs, s.geometry.lifecycle, segment)
    requires s.expansion.count == 0 || s.expansion.segment != segment
    requires AllExceed(c, fs, SizeNow(s.geometry), target) && |Heard(fs)| <= c.expandConfirmFrames
    ensures |Heard(fs)| < c.expandConfirmFrames ==> Growing(c, s, Continue(c, s, fs), |Heard(fs)|, segment, target)
    ensures |Heard(fs)| == c.expandConfirmFrames ==> AtLeast(SizeNow(Continue(c, s, fs).geometry), target)
  {
    if |fs| > 0 {
      var front, f := fs[..|fs| - 1], fs[|fs| - 1];
      PacedFront(c, s, fs, s.geometry.lifecycle, segment);
      ExpansionCounted(c, s, front, segment, target);
      StaysAlong(c, s, front, segment);
      var t := Continue(c, s, front);
      NextDue(c, s, fs, t, f);
      if f.lifecycle == 0 {
        SilentStep(c, t, f);
      } else {
        ExpandStep(c, s, t, f, |Heard(front)|, segment, target);
      }
    }
  }

  /**
   With no expansion pending: until expandConfirmFrames frames in a row exceeded the frozen size it stays as it is,
   and with the last of them it covers whatever each of them covered.
   */
  lemma {:induction false} EnoughExpand(c: Config, s: State, fs: seq<Frame>, segment: nat, target: Size)
    requires ValidConfig(c) && !c.immediateExpand && s.geometry.frozen && Paced(c, s, fs, s.geometry.lifecycle, segment)
    requires s.expansion.count == 0 || s.expansion.segment != segment
    requires AllExceed(c, fs, SizeNow(s.geometry), target)
    ensures |Heard(fs)| < c.expandConfirmFrames ==> SizeNow(Continue(c, s, fs).geometry) == SizeNow(s.geometry)
    ensures |Heard(fs)| == c.expandConfirmFrames ==> AtLeast(SizeNow(Continue(c, s, fs).geometry), target)
  {
    if |Heard(fs)| <= c.expandConfirmFrames {
      ExpansionCounted(c, s, fs, segment, target);
    }
  }

  /** In the immediate mode one well-evidenced frame that exceeds the frozen size is adopted at once, each dimension where it is larger. */
  lemma ImmediatelyExpands(c: Config, s: State, f: Frame)
    requires ValidConfig(c) && c.immediateExpand && s.geometry.frozen && Advances(s, f) && f.lifecycle != 0 && f.lifecycle == s.geometry.lifecycle
    requires Exceeds(c, f, SizeNow(s.geometry), SizeNow(s.geometry))
    ensures var g := Step(c, s, f).geometry;
            && g.length == (if f.length.value > s.geometry.length then f.length.value else s.geometry.length)
            && g.width == (if f.width.value > s.geometry.width then f.width.value else s.geometry.width)
  {
    StepSizes(c, s, f);
  }

  // ---------------------------------------------------------------- shrinking

  /** What the frames of the cargo enter into the shrink window. */
  function Entries(c: Config, fs: seq<Frame>): Window {
    if |fs| == 0 then []
    else if fs[|fs| - 1].lifecycle == 0 then Entries(c, fs[..|fs| - 1])
    else Entries(c, fs[..|fs| - 1]) + [SizeOf(c, fs[|fs| - 1], c.shrinkConfidence)]
  }

  /** A frame without full evidence, or one that fits the frozen size without being equal to it. */
  predicate Fits(c: Config, f: Frame, base: Size) {
    Evidence(c, f, c.shrinkConfidence) ==>
      && f.length.value <= base.length && f.width.value <= base.width
      && (f.length.value < base.length || f.width.value < base.width)
  }

  ghost predicate AllFit(c: Config, fs: seq<Frame>, base: Size) {
    forall i :: 0 <= i < |fs| && fs[i].lifecycle != 0 ==> Fits(c, fs[i], base)
  }

  ghost predicate Collecting(c: Config, s: State, t: State, w: Window, segment: nat) {
    && SizeNow(t.geometry) == SizeNow(s.geometry)
    && (|w| == 0 ==> t.shrinkWindow == s.shrinkWindow && t.shrinkSegment == s.shrinkSegment)
    && (|w| > 0 ==> t.shrinkWindow == w && t.shrinkSegment == segment)
  }

  predicate Fresh(s: State, segment: nat) { s.shrinkWindow == [] || s.shrinkSegment != segment }

  lemma CollectStep(c: Config, s: State, t: State, f: Frame, w: Window, segment: nat)
    requires ValidConfig(c) && Fresh(s, segment) && |w| < c.windowFrames
    requires t.geometry.frozen && Advances(t, f) && f.lifecycle != 0 && f.lifecycle == t.geometry.lifecycle && f.segment == segment
    requires Collecting(c, s, t, w, segment) && (|w| > 0 ==> Continuous(c, t.lastStamp, f.stamp.value))
    requires Fits(c, f, SizeNow(s.geometry))
    ensures var more := w + [SizeOf(c, f, c.shrinkConfidence)]; var sizes := Good(more);
            && (|sizes| < c.shrinkConfirmFrames ==> Collecting(c, s, Step(c, t, f), more, segment))
            && (Evidence(c, f, c.shrinkConfidence) && |sizes| >= c.shrinkConfirmFrames && Steady(c, sizes) ==>
                  SizeNow(Step(c, t, f).geometry) == Shrunk(c, s.geometry, Floor(c, f), MedianSize(sizes)))
  {
    var j, more := Judging(c, t, f), w + [SizeOf(c, f, c.shrinkConfidence)];
    StepSizes(c, t, f);
    JudgingWindow(c, t, f);
    assert ShrinkPushed(c, t, f) == more by {
      assert [] + [SizeOf(c, f, c.shrinkConfidence)] == [SizeOf(c, f, c.shrinkConfidence)];
      assert j.shrinkWindow == w;
    }
    DimensionsFrame(c, j, f);
    if Evidence(c, f, c.shrinkConfidence) {
      assert Dimensions(c, j, f) == Shrink(c, j, f, Measured(f));
      ShrunkAlike(c, j.geometry, s.geometry, Floor(c, f), MedianSize(Good(more)));
    }
  }

  lemma {:induction false} GoodGrows(w: Window, e: Option<Size>)
    ensures |Good(w)| <= |Good(w + [e])|
  {
    assert (w + [e])[..|w|] == w;
  }

  lemma {:induction false} EntriesHeard(c: Config, fs: seq<Frame>)
    ensures |Entries(c, fs)| == |Heard(fs)|
  {
    if |fs| > 0 {
      EntriesHeard(c, fs[..|fs| - 1]);
    }
  }

  lemma {:induction false} ShrinkCollected(c: Config, s: State, fs: seq<Frame>, segment: nat)
    requires ValidConfig(c) && s.geometry.frozen && Paced(c, s, fs, s.geometry.lifecycle, segment) && Fresh(s, segment)
    requires AllFit(c, fs, SizeNow(s.geometry)) && |Heard(fs)| <= c.windowFrames && |Good(Entries(c, fs))| < c.shrinkConfirmFrames
    ensures Collecting(c, s, Continue(c, s, fs), Entries(c, fs), segment)
  {
    if |fs| > 0 {
      var front, f := fs[..|fs| - 1], fs[|fs| - 1];
      PacedFront(c, s, fs, s.geometry.lifecycle, segment);
      EntriesHeard(c, front);
      GoodGrows(Entries(c, front), SizeOf(c, f, c.shrinkConfidence));
      ShrinkCollected(c, s, front, segment);
      StaysAlong(c, s, front, segment);
      var t := Continue(c, s, front);
      NextDue(c, s, fs, t, f);
      if f.lifecycle == 0 {
        SilentStep(c, t, f);
      } else {
        CollectStep(c, s, t, f, Entries(c, front), segment);
      }
    }
  }

  /** x is the largest of what the bounded step leaves, the median and the lower bounds. */
  predicate StepsTo(x: real, left: real, median: real, minimum: real, lower: real) {
    && x >= left && x >= median && x >= minimum && x >= lower
    && (x == left || x == median || x == minimum || x == lower)
  }

  lemma ShrunkSteps(c: Config, g: Geometry, f: Frame, median: Size)
    requires c.minLength > 0.0 && c.minWidth > 0.0
    ensures var t := Shrunk(c, g, Floor(c, f), median);
            && StepsTo(t.length, g.length - c.maxShrink, median.length, c.minLength, f.staticLength)
            && StepsTo(t.width, g.width - c.maxShrink, median.width, c.minWidth, f.staticWidth)
  {}

  /**
   With an empty shrink window: the frozen size stays as it is until shrinkConfirmFrames well-evidenced frames fitted
   it; the one that completes them, when they are steady, shrinks it towards their median by the bounded step.
   */
  lemma {:induction false} EnoughShrink(c: Config, s: State, fs: seq<Frame>, f: Frame, segment: nat)
    requires ValidConfig(c) && s.geometry.frozen && Fresh(s, segment) && Paced(c, s, fs + [f], s.geometry.lifecycle, segment)
    requires AllFit(c, fs + [f], SizeNow(s.geometry)) && f.lifecycle != 0 && Evidence(c, f, c.shrinkConfidence)
    requires |Heard(fs)| < c.windowFrames && |Good(Entries(c, fs))| == c.shrinkConfirmFrames - 1
    ensures SizeNow(Continue(c, s, fs).geometry) == SizeNow(s.geometry)
    ensures var sizes := Good(Entries(c, fs)) + [Measured(f)];
            Steady(c, sizes) ==>
              && StepsTo(Continue(c, s, fs + [f]).geometry.length, s.geometry.length - c.maxShrink, Median(Lengths(sizes)), c.minLength, f.staticLength)
              && StepsTo(Continue(c, s, fs + [f]).geometry.width, s.geometry.width - c.maxShrink, Median(Widths(sizes)), c.minWidth, f.staticWidth)
  {
    var all := fs + [f];
    assert all[..|all| - 1] == fs;
    PacedFront(c, s, all, s.geometry.lifecycle, segment);
    assert forall i :: 0 <= i < |fs| ==> all[i] == fs[i];
    EntriesHeard(c, fs);
    ShrinkCollected(c, s, fs, segment);
    StaysAlong(c, s, fs, segment);
    var t, w := Continue(c, s, fs), Entries(c, fs);
    NextDue(c, s, all, t, f);
    assert |w| > 0 ==> |fs| > 0;
    CollectStep(c, s, t, f, w, segment);
    assert (w + [Some(Measured(f))])[..|w|] == w;
    assert Good(w + [Some(Measured(f))]) == Good(w) + [Measured(f)];
    ShrunkSteps(c, s.geometry, f, MedianSize(Good(w) + [Measured(f)]));
  }

  // ---------------------------------------------------------------- the freeze

  function Shapes(c: Config, fs: seq<Frame>): Window {
    if |fs| == 0 then [] else Shapes(c, fs[..|fs| - 1]) + [SizeOf(c, fs[|fs| - 1], c.initialConfidence)]
  }

  function Heights(c: Config, fs: seq<Frame>): seq<Option<real>> {
    if |fs| == 0 then [] else Heights(c, fs[..|fs| - 1]) + [HeightOf(c, fs[|fs| - 1])]
  }

  lemma {:induction false} WindowLengths(c: Config, fs: seq<Frame>)
    ensures |Shapes(c, fs)| == |fs| == |Heights(c, fs)|
  {
    if |fs| > 0 {
      WindowLengths(c, fs[..|fs| - 1]);
    }
  }

  /** Placed frames of one cargo, segment and mode of evidence, none of them late. */
  ghost predicate AllPlaced(c: Config, fs: seq<Frame>, formal: bool) {
    forall i :: 0 <= i < |fs| ==> fs[i].lifecycle != 0 && Placed(fs[i]) && Gather(c, fs[i]).pair.Some? == formal
  }

  /** Nothing yet that the frames would continue. */
  predicate Blank(s: State, lifecycle: nat, segment: nat) {
    && !s.geometry.frozen && (s.geometry.lifecycle == 0 || s.geometry.lifecycle == lifecycle)
    && (s.shapeWindow == [] || s.shapeSegment != segment) && (s.thicknessWindow == [] || s.thicknessSegment != segment)
  }

  ghost predicate Filled(c: Config, s: State, t: State, fs: seq<Frame>, lifecycle: nat, segment: nat, formal: bool) {
    && Reached(s, fs, t) && !t.geometry.frozen
    && (|fs| > 0 ==>
          && t.geometry.lifecycle == lifecycle && t.mode == Some(formal)
          && t.shapeSegment == segment && t.shapeWindow == Shapes(c, fs)
          && t.thicknessSegment == segment && t.thicknessWindow == Heights(c, fs))
  }

  lemma {:induction false} PlacedEnters(c: Config, s: State, t: State, fs: seq<Frame>, f: Frame, lifecycle: nat, segment: nat, formal: bool)
    requires ValidConfig(c) && Blank(s, lifecycle, segment) && Filled(c, s, t, fs, lifecycle, segment, formal)
    requires |fs| < c.windowFrames && Advances(t, f) && (|fs| > 0 ==> Continuous(c, t.lastStamp, f.stamp.value))
    requires f.lifecycle == lifecycle != 0 && f.segment == segment && Placed(f) && Gather(c, f).pair.Some? == formal
    ensures var u := Met(c, t, f);
            && !u.geometry.frozen && Step(c, t, f) == PendingStep(c, u, f)
            && ShapePushed(c, u, f) == Shapes(c, fs + [f]) && HeightPushed(c, u, f) == Heights(c, fs + [f])
  {
    var shape, height := SizeOf(c, f, c.initialConfidence), HeightOf(c, f);
    var u := Met(c, t, f);
    WindowLengths(c, fs);
    assert (fs + [f])[..|fs|] == fs;
    assert Shapes(c, fs + [f]) == Shapes(c, fs) + [shape] && Heights(c, fs + [f]) == Heights(c, fs) + [height];
    assert [] + [shape] == [shape] && [] + [height] == [height];
    assert u == Timed(c, t, f);
    assert fs != [] ==> u.shapeWindow == Shapes(c, fs) && u.thicknessWindow == Heights(c, fs);
  }

  lemma {:induction false} FreezeStep(c: Config, s: State, t: State, fs: seq<Frame>, f: Frame, lifecycle: nat, segment: nat, formal: bool)
    requires ValidConfig(c) && Blank(s, lifecycle, segment) && Filled(c, s, t, fs, lifecycle, segment, formal)
    requires |fs| < c.windowFrames && Advances(t, f) && (|fs| > 0 ==> Continuous(c, t.lastStamp, f.stamp.value))
    requires f.lifecycle == lifecycle != 0 && f.segment == segment && Placed(f) && Gather(c, f).pair.Some? == formal
    ensures var t', all := Step(c, t, f), fs + [f];
            && (t'.geometry.frozen <==> Ripe(c, f, Good(Shapes(c, all)), Good(Heights(c, all))))
            && (t'.geometry.frozen ==> FrozenFrom(c, f, Good(Shapes(c, all)), Good(Heights(c, all)), t'.geometry))
            && (if t'.geometry.frozen then t'.geometry.lifecycle == lifecycle && t'.geometry.formal == formal
                else Filled(c, s, t', all, lifecycle, segment, formal))
            && t'.lastStamp == f.stamp.value
  {
    var u := Met(c, t, f);
    PlacedEnters(c, s, t, fs, f, lifecycle, segment, formal);
    if PendingStep(c, u, f).geometry.frozen {
      FreezeIsConfirmed(c, u, f);
    }
    FreezesExactly(c, u, f);
    PendingWindows(c, u, f);
    StepStamp(c, t, f);
  }

  /** As long as the geometry is not frozen the windows hold exactly the frames; frozen, it is theirs. */
  ghost predicate Stage(c: Config, s: State, t: State, fs: seq<Frame>, lifecycle: nat, segment: nat, formal: bool) {
    Reached(s, fs, t) && if t.geometry.frozen then t.geometry.lifecycle == lifecycle else Filled(c, s, t, fs, lifecycle, segment, formal)
  }

  lemma NextStage(c: Config, s: State, t: State, next: State, fs: seq<Frame>, f: Frame, all: seq<Frame>, lifecycle: nat, segment: nat, formal: bool)
    requires next == Step(c, t, f) && all == fs + [f]
    requires ValidConfig(c) && Blank(s, lifecycle, segment) && Stage(c, s, t, fs, lifecycle, segment, formal)
    requires |fs| < c.windowFrames && Advances(t, f) && (|fs| > 0 ==> Continuous(c, t.lastStamp, f.stamp.value))
    requires f.lifecycle == lifecycle != 0 && f.segment == segment && Placed(f) && Gather(c, f).pair.Some? == formal
    ensures Stage(c, s, next, all, lifecycle, segment, formal)
  {
    if t.geometry.frozen {
      StaysFrozen(c, t, f);
    } else {
      FreezeStep(c, s, t, fs, f, lifecycle, segment, formal);
    }
  }

  lemma PlacedFront(c: Config, fs: seq<Frame>, formal: bool)
    requires |fs| > 0 && AllPlaced(c, fs, formal)
    ensures AllPlaced(c, fs[..|fs| - 1], formal)
    ensures var f := fs[|fs| - 1]; f.lifecycle != 0 && Placed(f) && Gather(c, f).pair.Some? == formal
  {}

  lemma ContinueOne(c: Config, s: State, fs: seq<Frame>) returns (t: State)
    requires |fs| > 0
    ensures t == Continue(c, s, fs[..|fs| - 1]) && Continue(c, s, fs) == Step(c, t, fs[|fs| - 1])
    ensures fs == fs[..|fs| - 1] + [fs[|fs| - 1]]
  {
    t := Continue(c, s, fs[..|fs| - 1]);
  }

  lemma {:induction false} WindowsFill(c: Config, s: State, fs: seq<Frame>, lifecycle: nat, segment: nat, formal: bool)
    requires ValidConfig(c) && lifecycle != 0 && Blank(s, lifecycle, segment) && Paced(c, s, fs, lifecycle, segment)
    requires AllPlaced(c, fs, formal) && |fs| <= c.windowFrames
    ensures Stage(c, s, Continue(c, s, fs), fs, lifecycle, segment, formal)
  {
    if |fs| > 0 {
      var front, f := fs[..|fs| - 1], fs[|fs| - 1];
      PacedFront(c, s, fs, lifecycle, segment);
      PlacedFront(c, fs, formal);
      WindowsFill(c, s, front, lifecycle, segment, formal);
      var t := ContinueOne(c, s, fs);
      NextDue(c, s, fs, t, f);
      NextStage(c, s, t, Continue(c, s, fs), front, f, fs, lifecycle, segment, formal);
    }
  }

  /**
   From a blank state, of up to windowFrames placed frames of one cargo, segment and mode the first after which enough
   shapes are steady and enough heights agree, its own among them, freezes the geometry, at their medians; no earlier one does.
   */
  lemma {:induction false} EnoughFreeze(c: Config, s: State, fs: seq<Frame>, f: Frame, lifecycle: nat, segment: nat, formal: bool)
    requires ValidConfig(c) && lifecycle != 0 && Blank(s, lifecycle, segment) && Paced(c, s, fs + [f], lifecycle, segment)
    requires AllPlaced(c, fs + [f], formal) && |fs| < c.windowFrames
    requires !Continue(c, s, fs).geometry.frozen
    ensures var g, all := Continue(c, s, fs + [f]).geometry, fs + [f];
            && (g.frozen <==> Ripe(c, f, Good(Shapes(c, all)), Good(Heights(c, all))))
            && (g.frozen ==> FrozenFrom(c, f, Good(Shapes(c, all)), Good(Heights(c, all)), g) && g.formal == formal)
  {
    var all := fs + [f];
    assert all[..|all| - 1] == fs && all[|all| - 1] == f;
    PacedFront(c, s, all, lifecycle, segment);
    assert forall i :: 0 <= i < |fs| ==> all[i] == fs[i];
    WindowsFill(c, s, fs, lifecycle, segment, formal);
    var t := Continue(c, s, fs);
    NextDue(c, s, all, t, f);
    FreezeStep(c, s, t, fs, f, lifecycle, segment, formal);
  }
}
