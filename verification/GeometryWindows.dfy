/**
 What the evidence windows hold on every run: the entries of the last frames of one segment, unbroken
 by a gap; and what a freeze and a shrink step therefore rest on.
 */
module GeometryWindows {
  import opened Prelude
  import opened Positions
  import opened GeometryThickness
  import opened GeometryFusion
  import opened GeometryRuns
  import opened GeometryStreaks

  // ---------------------------------------------------------------- what a frame enters into a window

  ghost function Shape(c: Config, confidence: real): Frame -> Option<Size> {
    (f: Frame) => SizeOf(c, f, confidence)
  }

  /** The thickness candidate of a frame, absent when the frame is not placed or its evidence is refused. */
  function HeightOf(c: Config, f: Frame): Option<real> {
    if !Placed(f) then None
    else
      var e := Gather(c, f);
      if e.pair.None? && !PositiveCandidate(c, f, e) then None
      else if e.pair.Some? && Estimated(c, e).uncertainty > c.rules.maxUncertainty then None
      else Some(Estimated(c, e).height)
  }

  /** The state in which a placed frame is confirmed or refused. */
  function Readied(c: Config, s: State, f: Frame): State {
    var t := Windows(c, s, f);
    SetMode(t.(geometry := t.geometry.(lifecycle := f.lifecycle, segment := f.segment)), Gather(c, f).pair.Some?)
  }

  ghost function Height(c: Config): Frame -> Option<real> {
    (f: Frame) => HeightOf(c, f)
  }

  /** The frames of one lifecycle and segment. */
  ghost function Framed(run: seq<Frame>, lifecycle: nat, segment: nat): nat -> bool {
    (k: nat) => k < |run| && run[k].lifecycle == lifecycle && run[k].segment == segment
  }

  /** The lifecycle that the geometry knows right after frame k; 0 as long as no frame was placed. */
  function KnownAfter(c: Config, run: seq<Frame>, k: nat): nat
    requires k < |run|
  {
    Step(c, At(c, run, k), run[k]).geometry.lifecycle
  }

  /** A frame of the segment: unplaced as long as no lifecycle is known, and of the known one from then on. */
  ghost predicate Seen(c: Config, run: seq<Frame>, k: nat, lifecycle: nat, segment: nat) {
    && k < |run| && run[k].lifecycle != 0 && run[k].segment == segment
    && if KnownAfter(c, run, k) == 0 then !Placed(run[k]) else run[k].lifecycle == lifecycle
  }

  ghost function Shaped(c: Config, run: seq<Frame>, lifecycle: nat, segment: nat): nat -> bool {
    (k: nat) => Seen(c, run, k, lifecycle, segment)
  }

  /** Such frames whose evidence, once they are placed, is of one mode. */
  ghost function Moded(c: Config, run: seq<Frame>, lifecycle: nat, segment: nat, mode: Option<bool>): nat -> bool {
    (k: nat) => && Seen(c, run, k, lifecycle, segment)
                && (Placed(run[k]) ==> mode == Some(Gather(c, run[k]).pair.Some?))
  }

  /** From the first placed frame of ks on, every frame is of the lifecycle. */
  ghost predicate Owned(run: seq<Frame>, ks: seq<nat>, lifecycle: nat) {
    forall i, j :: 0 <= i <= j < |ks| && ks[i] < |run| && ks[j] < |run| && Placed(run[ks[i]]) ==> run[ks[j]].lifecycle == lifecycle
  }

  /** The window holds the entries of the frames ks, an unbroken chain of counting frames up to the end of the run. */
  ghost predicate WindowOf<T>(c: Config, run: seq<Frame>, ks: seq<nat>, w: seq<Option<T>>, counts: nat -> bool, entry: Frame -> Option<T>) {
    && |ks| == |w| && Chain(c, run, ks, counts)
    && forall i :: 0 <= i < |ks| ==> ks[i] < |run| && w[i] == entry(run[ks[i]])
  }

  /** No frame behind the first of ks comes after a gap. */
  ghost predicate Dense(c: Config, run: seq<Frame>, ks: seq<nat>) {
    |ks| > 0 ==> forall p: nat :: ks[0] < p < |run| ==> Follows(c, run, p)
  }

  lemma {:induction false} WindowRests<T>(c: Config, run: seq<Frame>, f: Frame, ks: seq<nat>, w: seq<Option<T>>, counts: nat -> bool, counts': nat -> bool,
                       entry: Frame -> Option<T>)
    requires WindowOf(c, run, ks, w, counts, entry) && Carries(run, counts, counts')
    requires f.lifecycle == 0 && Advances(After(c, run), f)
    ensures WindowOf(c, run + [f], ks, w, counts', entry)
  {
    ChainRests(c, run, f, ks, counts, counts');
  }

  lemma DenseLater(c: Config, run: seq<Frame>, f: Frame, ks: seq<nat>)
    requires Dense(c, run, ks) && |ks| > 0 && Follows(c, run + [f], |run|)
    ensures Dense(c, run + [f], ks)
  {
    forall p: nat | ks[0] < p < |run| + 1 ensures Follows(c, run + [f], p) {
      if p < |run| {
        FollowsLater(c, run, f, p);
      }
    }
  }

  lemma DenseEnds(c: Config, run: seq<Frame>, ks: seq<nat>, n: nat)
    requires Dense(c, run, ks) && Rising(ks)
    ensures Dense(c, run, LastN(ks, n))
  {
    if 0 < n < |ks| {
      assert ks[0] < ks[|ks| - n];
    }
  }

  lemma DensePushed(c: Config, run: seq<Frame>, f: Frame, ks: seq<nat>)
    requires Dense(c, run, ks) && |ks| > 0 && Follows(c, run + [f], |run|) && Rising(ks) && ks[|ks| - 1] < |run|
    ensures Dense(c, run + [f], LastN(ks + [|run|], c.windowFrames))
  {
    var more := ks + [|run|];
    DenseLater(c, run, f, ks);
    assert more[0] == ks[0];
    forall i, j | 0 <= i < j < |more| ensures more[i] < more[j] {
      if j == |ks| {
        assert ks[i] <= ks[|ks| - 1];
      }
    }
    DenseEnds(c, run + [f], more, c.windowFrames);
  }

  /** A frame enters a window that it continues. */
  lemma WindowGrows<T>(c: Config, run: seq<Frame>, f: Frame, ks: seq<nat>, w: seq<Option<T>>, counts: nat -> bool, counts': nat -> bool,
                       entry: Frame -> Option<T>)
    requires WindowOf(c, run, ks, w, counts, entry) && Carries(run, counts, counts') && counts'(|run|)
    requires |ks| > 0 ==> Follows(c, run + [f], |run|)
    ensures WindowOf(c, run + [f], ks + [|run|], w + [entry(f)], counts', entry)
  {
    ChainGrows(c, run, f, ks, counts, counts');
  }

  lemma WindowEnds<T>(c: Config, run: seq<Frame>, ks: seq<nat>, w: seq<Option<T>>, counts: nat -> bool, entry: Frame -> Option<T>, n: nat)
    requires WindowOf(c, run, ks, w, counts, entry)
    ensures WindowOf(c, run, LastN(ks, n), LastN(w, n), counts, entry)
  {
    ChainEnds(c, run, ks, counts, n);
  }

  /** The bounded window behind a frame that continues the window. */
  lemma WindowContinues<T>(c: Config, run: seq<Frame>, f: Frame, ks: seq<nat>, w: seq<Option<T>>, counts: nat -> bool, counts': nat -> bool,
                           entry: Frame -> Option<T>)
    requires ValidConfig(c) && WindowOf(c, run, ks, w, counts, entry) && Carries(run, counts, counts') && counts'(|run|)
    requires |ks| > 0 && Follows(c, run + [f], |run|)
    ensures var js := LastN(ks + [|run|], c.windowFrames);
            && |js| > 0 && js[|js| - 1] == |run|
            && WindowOf(c, run + [f], js, LastN(w + [entry(f)], c.windowFrames), counts', entry)
            && (Dense(c, run, ks) ==> Dense(c, run + [f], js))
  {
    WindowGrows(c, run, f, ks, w, counts, counts', entry);
    WindowEnds(c, run + [f], ks + [|run|], w + [entry(f)], counts', entry, c.windowFrames);
    if Dense(c, run, ks) {
      DensePushed(c, run, f, ks);
    }
  }

  /** The window behind a frame that starts a new one. */
  lemma WindowStarts<T>(c: Config, run: seq<Frame>, f: Frame, counts: nat -> bool, entry: Frame -> Option<T>)
    requires ValidConfig(c) && counts(|run|)
    ensures LastN([] + [|run| as nat], c.windowFrames) == [|run| as nat] && Dense(c, run + [f], [|run|])
    ensures LastN([] + [entry(f)], c.windowFrames) == [entry(f)] && WindowOf(c, run + [f], [|run|], [entry(f)], counts, entry)
  {
    ChainStarts(c, run, f, counts);
    assert [] + [|run| as nat] == [|run| as nat];
    assert [] + [entry(f)] == [entry(f)];
  }

  /** The bounded window behind a frame that continues the window or starts a new one. */
  lemma WindowPushed<T>(c: Config, run: seq<Frame>, f: Frame, ks: seq<nat>, w: seq<Option<T>>, kept: bool, counts: nat -> bool, counts': nat -> bool,
                        entry: Frame -> Option<T>)
    returns (js: seq<nat>)
    requires ValidConfig(c) && WindowOf(c, run, ks, w, counts, entry) && counts'(|run|)
    requires kept && |ks| > 0 ==> Carries(run, counts, counts') && Follows(c, run + [f], |run|)
    ensures |js| > 0 && js[|js| - 1] == |run| && js == LastN((if kept then ks else []) + [|run|], c.windowFrames)
    ensures WindowOf(c, run + [f], js, LastN((if kept then w else []) + [entry(f)], c.windowFrames), counts', entry)
    ensures Dense(c, run, ks) ==> Dense(c, run + [f], js)
  {
    js := LastN((if kept then ks else []) + [|run|], c.windowFrames);
    if kept && |ks| > 0 {
      WindowContinues(c, run, f, ks, w, counts, counts', entry);
    } else {
      WindowStarts(c, run, f, counts', entry);
      assert kept ==> ks == [] && w == [];
    }
  }

  // ---------------------------------------------------------------- the shrink window

  ghost predicate ShrinkHeldBy(c: Config, run: seq<Frame>, ks: seq<nat>, s: State) {
    WindowOf(c, run, ks, s.shrinkWindow, Framed(run, s.geometry.lifecycle, s.shrinkSegment), Shape(c, c.shrinkConfidence))
  }

  ghost predicate ShrinkHeld(c: Config, run: seq<Frame>, s: State) {
    && (!s.geometry.frozen ==> s.shrinkWindow == [])
    && (|s.shrinkWindow| > 0 ==> s.lastStamp > 0.0 && exists ks: seq<nat> :: ShrinkHeldBy(c, run, ks, s))
  }

  /** The segment and the clock go on from the last frame that entered the shrink window. */
  predicate ShrinkKept(c: Config, s: State, f: Frame)
    requires f.stamp.Some?
  {
    f.segment == s.shrinkSegment && Continuous(c, s.lastStamp, f.stamp.value)
  }

  /** The shrink window with the entry of this frame. */
  function ShrinkPushed(c: Config, s: State, f: Frame): Window
    requires f.stamp.Some?
  {
    LastN((if ShrinkKept(c, s, f) then s.shrinkWindow else []) + [SizeOf(c, f, c.shrinkConfidence)], c.windowFrames)
  }

  lemma JudgingWindow(c: Config, s: State, f: Frame)
    requires f.stamp.Some?
    ensures var j := Judging(c, s, f);
            && j.shrinkWindow == (if ShrinkKept(c, s, f) then s.shrinkWindow else []) && j.shrinkSegment == f.segment
            && (Evidence(c, f, c.shrinkConfidence) ==> Judged(c, j, f) == Good(ShrinkPushed(c, s, f)))
  {
    PromotionFrame(c, Timed(c, s, f), f, Continuous(c, s.lastStamp, f.stamp.value));
  }

  /** A dimension step empties the shrink window or enters this frame into it. */
  lemma DimensionsWindow(c: Config, s: State, f: Frame)
    ensures var t := Dimensions(c, s, f);
            || t.shrinkWindow == []
            || t.shrinkWindow == LastN(s.shrinkWindow + [SizeOf(c, f, c.shrinkConfidence)], c.windowFrames)
  {}

  lemma ShrinkPushedHeld(c: Config, run: seq<Frame>, f: Frame, s: State) returns (ks: seq<nat>)
    requires ValidConfig(c) && Reaches(c, run, f, s) && ShrinkHeld(c, run, s)
    ensures |ks| > 0 && ks[|ks| - 1] == |run|
    ensures WindowOf(c, run + [f], ks, ShrinkPushed(c, s, f), Framed(run + [f], f.lifecycle, f.segment), Shape(c, c.shrinkConfidence))
  {
    var counts := Framed(run + [f], f.lifecycle, f.segment);
    assert counts(|run|);
    var past: seq<nat> := [];
    if |s.shrinkWindow| > 0 {
      past :| ShrinkHeldBy(c, run, past, s);
      if ShrinkKept(c, s, f) {
        FollowsNow(c, run, f);
      }
    }
    ks := WindowPushed(c, run, f, past, s.shrinkWindow, ShrinkKept(c, s, f), Framed(run, f.lifecycle, s.shrinkSegment), counts,
                       Shape(c, c.shrinkConfidence));
  }

  lemma FrozenHeld(c: Config, run: seq<Frame>, f: Frame, s: State)
    requires ValidConfig(c) && Reaches(c, run, f, s) && ShrinkHeld(c, run, s)
    ensures ShrinkHeld(c, run + [f], Step(c, s, f))
  {
    var j, t := Judging(c, s, f), Step(c, s, f);
    StaysFrozen(c, s, f);
    JudgingWindow(c, s, f);
    DimensionsWindow(c, j, f);
    DimensionsFrame(c, j, f);
    if |t.shrinkWindow| > 0 {
      var ks := ShrinkPushedHeld(c, run, f, s);
      assert ShrinkHeldBy(c, run + [f], ks, t);
    }
  }

  lemma ConfirmKeepsShrink(c: Config, s: State, f: Frame, formal: bool, e: Estimate)
    requires f.centre.Some? && f.yaw.Some?
    ensures Confirm(c, s, f, formal, e).shrinkWindow == s.shrinkWindow
  {}

  lemma PendingKeepsShrink(c: Config, s: State, f: Frame)
    ensures PendingStep(c, s, f).shrinkWindow == s.shrinkWindow
  {
    if Placed(f) {
      var u := Readied(c, s, f);
      if HeightOf(c, f).Some? {
        ConfirmKeepsShrink(c, u, f, Gather(c, f).pair.Some?, Estimated(c, Gather(c, f)));
      }
    }
  }

  lemma {:induction false} StepShrinkHeld(c: Config, run: seq<Frame>, f: Frame, s: State)
    requires ValidConfig(c) && s == After(c, run) && ShrinkHeld(c, run, s) && (s.geometry.frozen ==> s.geometry.lifecycle != 0)
    ensures ShrinkHeld(c, run + [f], Step(c, s, f))
  {
    if Advances(s, f) {
      if Reaches(c, run, f, s) {
        FrozenHeld(c, run, f, s);
      } else if f.lifecycle != 0 {
        var t := Timed(c, s, f);
        PendingKeepsShrink(c, if OtherLifecycle(t, f) then INITIAL.(lastStamp := f.stamp.value) else t, f);
      } else if |s.shrinkWindow| > 0 {
        SilentStep(c, s, f);
        var lifecycle := s.geometry.lifecycle;
        var ks: seq<nat> :| ShrinkHeldBy(c, run, ks, s);
        WindowRests(c, run, f, ks, s.shrinkWindow, Framed(run, lifecycle, s.shrinkSegment), Framed(run + [f], lifecycle, s.shrinkSegment),
                    Shape(c, c.shrinkConfidence));
        assert ShrinkHeldBy(c, run + [f], ks, Step(c, s, f));
      }
    }
  }

  /** On every run the shrink window holds the entries of an unbroken chain of frames of the frozen lifecycle and one segment. */
  lemma {:induction false} RunShrinkHeld(c: Config, run: seq<Frame>)
    requires ValidConfig(c)
    ensures ShrinkHeld(c, run, After(c, run))
  {
    if |run| > 0 {
      var front, f := run[..|run| - 1], run[|run| - 1];
      assert front + [f] == run;
      RunShrinkHeld(c, front);
      RunLifecycle(c, front);
      StepShrinkHeld(c, front, f, After(c, front));
    }
  }

  predicate Shrinks(g: Geometry, h: Geometry) { h.length < g.length || h.width < g.width }

  lemma ShrinkExactly(c: Config, s: State, f: Frame)
    requires Shrinks(s.geometry, Dimensions(c, s, f).geometry)
    ensures Evidence(c, f, c.shrinkConfidence) && |Judged(c, s, f)| >= c.shrinkConfirmFrames && Steady(c, Judged(c, s, f))
    ensures SizeNow(Dimensions(c, s, f).geometry) == Shrunk(c, s.geometry, Floor(c, f), MedianSize(Judged(c, s, f)))
  {}

  lemma ShrunkStep(c: Config, s: State, f: Frame)
    requires f.stamp.Some? && SizeNow(Judging(c, s, f).geometry) == SizeNow(s.geometry)
    requires Shrinks(s.geometry, Dimensions(c, Judging(c, s, f), f).geometry)
    ensures var sizes := Good(ShrinkPushed(c, s, f));
            && |sizes| >= c.shrinkConfirmFrames && Steady(c, sizes)
            && SizeNow(Dimensions(c, Judging(c, s, f), f).geometry) == Shrunk(c, s.geometry, Floor(c, f), MedianSize(sizes))
  {
    var j := Judging(c, s, f);
    JudgingWindow(c, s, f);
    ShrinkExactly(c, j, f);
    ShrunkAlike(c, j.geometry, s.geometry, Floor(c, f), MedianSize(Judged(c, j, f)));
  }

  lemma ShrunkAlike(c: Config, g: Geometry, h: Geometry, floor: Size, median: Size)
    requires SizeNow(g) == SizeNow(h)
    ensures Shrunk(c, g, floor, median) == Shrunk(c, h, floor, median)
  {}

  /**
   On every run, a frame of the frozen lifecycle that reduces a dimension ends an unbroken chain of
   frames of its lifecycle and segment; at least shrinkConfirmFrames of them carry full evidence, their
   sizes are steady, and the new size is their median, kept from falling by more than maxShrink or
   below the floor.
   */
  lemma ShrinkIsBacked(c: Config, run: seq<Frame>, f: Frame) returns (ks: seq<nat>, w: Window)
    requires ValidConfig(c) && Reaches(c, run, f, After(c, run))
    requires Shrinks(After(c, run).geometry, Step(c, After(c, run), f).geometry)
    ensures |ks| > 0 && ks[|ks| - 1] == |run|
    ensures WindowOf(c, run + [f], ks, w, Framed(run + [f], f.lifecycle, f.segment), Shape(c, c.shrinkConfidence))
    ensures |Good(w)| >= c.shrinkConfirmFrames && Steady(c, Good(w))
    ensures SizeNow(Step(c, After(c, run), f).geometry) == Shrunk(c, After(c, run).geometry, Floor(c, f), MedianSize(Good(w)))
  {
    var s := After(c, run);
    RunShrinkHeld(c, run);
    StepSizes(c, s, f);
    ShrunkStep(c, s, f);
    ks := ShrinkPushedHeld(c, run, f, s);
    w := ShrinkPushed(c, s, f);
  }

  // ---------------------------------------------------------------- the windows before the freeze

  ghost predicate ShapeHeld(c: Config, run: seq<Frame>, ks: seq<nat>, s: State) {
    && WindowOf(c, run, ks, s.shapeWindow, Shaped(c, run, s.geometry.lifecycle, s.shapeSegment), Shape(c, c.initialConfidence))
    && Dense(c, run, ks) && Owned(run, ks, s.geometry.lifecycle)
  }

  ghost predicate HeightHeld(c: Config, run: seq<Frame>, ks: seq<nat>, s: State) {
    && WindowOf(c, run, ks, s.thicknessWindow, Moded(c, run, s.geometry.lifecycle, s.thicknessSegment, s.mode), Height(c))
    && Dense(c, run, ks) && Owned(run, ks, s.geometry.lifecycle)
  }

  ghost predicate PendingHeld(c: Config, run: seq<Frame>, s: State) {
    && (|s.shapeWindow| > 0 || |s.thicknessWindow| > 0 ==> s.lastStamp > 0.0)
    && (exists ks: seq<nat> :: ShapeHeld(c, run, ks, s))
    && (exists ks: seq<nat> :: HeightHeld(c, run, ks, s))
  }

  lemma EmptyHeld(c: Config, run: seq<Frame>, s: State)
    requires s.shapeWindow == [] && s.thicknessWindow == []
    ensures PendingHeld(c, run, s)
  {
    assert ShapeHeld(c, run, [], s);
    assert HeightHeld(c, run, [], s);
  }

  /** The evidence mode goes on from the last placed frame. */
  predicate ModeKept(c: Config, s: State, f: Frame) {
    Placed(f) ==> s.mode == Some(Gather(c, f).pair.Some?)
  }

  predicate HeightKept(c: Config, s: State, f: Frame) {
    f.segment == s.thicknessSegment && ModeKept(c, s, f)
  }

  /** The lifecycle is known from the first placed frame on. */
  function LifecycleWith(s: State, f: Frame): nat {
    if Placed(f) then f.lifecycle else s.geometry.lifecycle
  }

  function ShapePushed(c: Config, s: State, f: Frame): Window {
    LastN((if f.segment == s.shapeSegment then s.shapeWindow else []) + [SizeOf(c, f, c.initialConfidence)], c.windowFrames)
  }

  function HeightPushed(c: Config, s: State, f: Frame): seq<Option<real>> {
    LastN((if HeightKept(c, s, f) then s.thicknessWindow else []) + [HeightOf(c, f)], c.windowFrames)
  }

  lemma ConfirmWindows(c: Config, s: State, f: Frame, formal: bool, e: Estimate)
    requires f.centre.Some? && f.yaw.Some?
    ensures var t := Confirm(c, s, f, formal, e);
            && t.shapeWindow == s.shapeWindow && t.shapeSegment == s.shapeSegment && t.thicknessSegment == s.thicknessSegment
            && t.mode == s.mode && t.lastStamp == s.lastStamp && t.geometry.lifecycle == s.geometry.lifecycle
            && t.thicknessWindow == SetLast(s.thicknessWindow, e.height)
  {}

  lemma SetLastPushed(w: seq<Option<real>>, n: nat, x: real)
    requires n > 0
    ensures SetLast(LastN(w + [None], n), x) == LastN(w + [Some(x)], n)
  {}

  lemma ReadiedWindows(c: Config, s: State, f: Frame)
    requires ValidConfig(c) && Placed(f)
    ensures var u := Readied(c, s, f);
            && u.shapeWindow == ShapePushed(c, s, f) && u.shapeSegment == f.segment && u.thicknessSegment == f.segment
            && u.thicknessWindow == LastN((if HeightKept(c, s, f) then s.thicknessWindow else []) + [None], c.windowFrames)
            && u.mode == Some(Gather(c, f).pair.Some?) && u.geometry.lifecycle == f.lifecycle && u.lastStamp == s.lastStamp
            && u.geometry.frozen == s.geometry.frozen
  {
    var none: Option<real> := None;
    assert [] + [none] == [none];
  }

  /** A placed frame is confirmed with its height, or refused without touching the windows again. */
  lemma PlacedStep(c: Config, s: State, f: Frame)
    requires Placed(f)
    ensures var t, u, e := PendingStep(c, s, f), Readied(c, s, f), Gather(c, f);
            if HeightOf(c, f).Some? then t == Confirm(c, u, f, e.pair.Some?, Estimated(c, e))
            else t == u.(geometry := t.geometry) && t.geometry.lifecycle == f.lifecycle && t.geometry.frozen == s.geometry.frozen
  {}

  lemma PlacedWindows(c: Config, s: State, f: Frame)
    requires ValidConfig(c) && Placed(f)
    ensures PendingStep(c, s, f).thicknessWindow == HeightPushed(c, s, f)
    ensures var t, u := PendingStep(c, s, f), Readied(c, s, f);
            && t.shapeWindow == u.shapeWindow && t.shapeSegment == u.shapeSegment && t.thicknessSegment == u.thicknessSegment
            && t.mode == u.mode && t.geometry.lifecycle == u.geometry.lifecycle
  {
    PlacedStep(c, s, f);
    ReadiedWindows(c, s, f);
    if HeightOf(c, f).Some? {
      var e := Gather(c, f);
      ConfirmWindows(c, Readied(c, s, f), f, e.pair.Some?, Estimated(c, e));
      SetLastPushed(if HeightKept(c, s, f) then s.thicknessWindow else [], c.windowFrames, Estimated(c, e).height);
    }
  }

  /** One update before the freeze enters the frame into both windows. */
  lemma PendingWindows(c: Config, s: State, f: Frame)
    requires ValidConfig(c)
    ensures var t := PendingStep(c, s, f);
            && t.shapeWindow == ShapePushed(c, s, f) && t.shapeSegment == f.segment
            && t.thicknessWindow == HeightPushed(c, s, f) && t.thicknessSegment == f.segment
            && t.mode == (if Placed(f) then Some(Gather(c, f).pair.Some?) else s.mode)
            && t.geometry.lifecycle == LifecycleWith(s, f)
  {
    if Placed(f) {
      PlacedWindows(c, s, f);
      ReadiedWindows(c, s, f);
    }
  }

  lemma OwnedLater(run: seq<Frame>, f: Frame, ks: seq<nat>, lifecycle: nat)
    requires Owned(run, ks, lifecycle) && forall i :: 0 <= i < |ks| ==> ks[i] < |run|
    ensures Owned(run + [f], ks, lifecycle)
  {}

  lemma OwnedEnds(run: seq<Frame>, ks: seq<nat>, lifecycle: nat, n: nat)
    requires Owned(run, ks, lifecycle)
    ensures Owned(run, LastN(ks, n), lifecycle)
  {
    var tail := LastN(ks, n);
    var d := |ks| - |tail|;
    assert forall i :: 0 <= i < |tail| ==> tail[i] == ks[i + d];
  }

  /** A frame that the lifecycle known so far does not turn away. */
  lemma OwnedPushed(c: Config, run: seq<Frame>, f: Frame, ks: seq<nat>, s: State, segment: nat)
    requires Owned(run, ks, s.geometry.lifecycle) && !OtherLifecycle(s, f)
    requires forall i :: 0 <= i < |ks| ==> Seen(c, run, ks[i], s.geometry.lifecycle, segment)
    ensures Owned(run + [f], ks + [|run|], LifecycleWith(s, f))
  {
    var more := ks + [|run|];
    forall i, j | 0 <= i <= j < |more| && Placed((run + [f])[more[i]]) ensures (run + [f])[more[j]].lifecycle == LifecycleWith(s, f) {
      if i < |ks| {
        assert Seen(c, run, ks[i], s.geometry.lifecycle, segment);
        assert run[ks[i]].lifecycle == s.geometry.lifecycle;
      }
    }
  }

  /** The same for the bounded window, continued or started anew. */
  lemma OwnedWindow(c: Config, run: seq<Frame>, f: Frame, ks: seq<nat>, kept: bool, s: State, segment: nat)
    requires Owned(run, ks, s.geometry.lifecycle) && !OtherLifecycle(s, f)
    requires forall i :: 0 <= i < |ks| ==> Seen(c, run, ks[i], s.geometry.lifecycle, segment)
    ensures Owned(run + [f], LastN((if kept then ks else []) + [|run|], c.windowFrames), LifecycleWith(s, f))
  {
    var before := if kept then ks else [];
    OwnedPushed(c, run, f, before, s, segment);
    OwnedEnds(run + [f], before + [|run|], LifecycleWith(s, f), c.windowFrames);
  }

  lemma KnownLater(c: Config, run: seq<Frame>, f: Frame, k: nat)
    requires k < |run|
    ensures KnownAfter(c, run + [f], k) == KnownAfter(c, run, k)
  {
    AtLater(c, run, f, k);
  }

  lemma SeenLater(c: Config, run: seq<Frame>, f: Frame, k: nat, lifecycle: nat, later: nat, segment: nat)
    requires Seen(c, run, k, lifecycle, segment) && (lifecycle != 0 ==> later == lifecycle)
    ensures Seen(c, run + [f], k, later, segment)
  {
    KnownLater(c, run, f, k);
  }

  lemma ShapedCarries(c: Config, run: seq<Frame>, f: Frame, lifecycle: nat, later: nat, segment: nat)
    requires lifecycle != 0 ==> later == lifecycle
    ensures Carries(run, Shaped(c, run, lifecycle, segment), Shaped(c, run + [f], later, segment))
  {
    forall k: nat | k < |run| && Shaped(c, run, lifecycle, segment)(k) ensures Shaped(c, run + [f], later, segment)(k) {
      SeenLater(c, run, f, k, lifecycle, later, segment);
    }
  }

  lemma ModedCarries(c: Config, run: seq<Frame>, f: Frame, lifecycle: nat, later: nat, segment: nat, mode: Option<bool>)
    requires lifecycle != 0 ==> later == lifecycle
    ensures Carries(run, Moded(c, run, lifecycle, segment, mode), Moded(c, run + [f], later, segment, mode))
  {
    forall k: nat | k < |run| && Moded(c, run, lifecycle, segment, mode)(k) ensures Moded(c, run + [f], later, segment, mode)(k) {
      SeenLater(c, run, f, k, lifecycle, later, segment);
    }
  }

  /** The new frame is seen with the lifecycle known after it. */
  lemma SeenNow(c: Config, run: seq<Frame>, f: Frame, s: State)
    requires f.lifecycle != 0 && !OtherLifecycle(s, f) && KnownAfter(c, run + [f], |run|) == LifecycleWith(s, f)
    ensures Seen(c, run + [f], |run|, LifecycleWith(s, f), f.segment)
  {}

  lemma ShapePushedHeld(c: Config, run: seq<Frame>, f: Frame, s: State) returns (ks: seq<nat>)
    requires ValidConfig(c) && PendingHeld(c, run, s) && f.lifecycle != 0
    requires |s.shapeWindow| > 0 ==> Follows(c, run + [f], |run|)
    requires !OtherLifecycle(s, f) && KnownAfter(c, run + [f], |run|) == LifecycleWith(s, f)
    ensures |ks| > 0 && ks[|ks| - 1] == |run| && Dense(c, run + [f], ks) && Owned(run + [f], ks, LifecycleWith(s, f))
    ensures WindowOf(c, run + [f], ks, ShapePushed(c, s, f), Shaped(c, run + [f], LifecycleWith(s, f), f.segment), Shape(c, c.initialConfidence))
  {
    var before, counts := Shaped(c, run, s.geometry.lifecycle, s.shapeSegment), Shaped(c, run + [f], LifecycleWith(s, f), f.segment);
    SeenNow(c, run, f, s);
    assert counts(|run|);
    var past: seq<nat> :| ShapeHeld(c, run, past, s);
    ShapedCarries(c, run, f, s.geometry.lifecycle, LifecycleWith(s, f), s.shapeSegment);
    ks := WindowPushed(c, run, f, past, s.shapeWindow, f.segment == s.shapeSegment, before, counts, Shape(c, c.initialConfidence));
    assert forall i :: 0 <= i < |past| ==> before(past[i]);
    OwnedWindow(c, run, f, past, f.segment == s.shapeSegment, s, s.shapeSegment);
  }

  lemma HeightPushedHeld(c: Config, run: seq<Frame>, f: Frame, s: State) returns (ks: seq<nat>)
    requires ValidConfig(c) && PendingHeld(c, run, s) && f.lifecycle != 0
    requires |s.thicknessWindow| > 0 ==> Follows(c, run + [f], |run|)
    requires !OtherLifecycle(s, f) && KnownAfter(c, run + [f], |run|) == LifecycleWith(s, f)
    ensures |ks| > 0 && ks[|ks| - 1] == |run| && Dense(c, run + [f], ks) && Owned(run + [f], ks, LifecycleWith(s, f))
    ensures var mode := if Placed(f) then Some(Gather(c, f).pair.Some?) else s.mode;
            WindowOf(c, run + [f], ks, HeightPushed(c, s, f), Moded(c, run + [f], LifecycleWith(s, f), f.segment, mode), Height(c))
  {
    var mode := if Placed(f) then Some(Gather(c, f).pair.Some?) else s.mode;
    var before := Moded(c, run, s.geometry.lifecycle, s.thicknessSegment, s.mode);
    var counts := Moded(c, run + [f], LifecycleWith(s, f), f.segment, mode);
    SeenNow(c, run, f, s);
    assert counts(|run|);
    var past: seq<nat> :| HeightHeld(c, run, past, s);
    ModedCarries(c, run, f, s.geometry.lifecycle, LifecycleWith(s, f), s.thicknessSegment, s.mode);
    ks := WindowPushed(c, run, f, past, s.thicknessWindow, HeightKept(c, s, f), before, counts, Height(c));
    assert forall i :: 0 <= i < |past| ==> before(past[i]);
    OwnedWindow(c, run, f, past, HeightKept(c, s, f), s, s.thicknessSegment);
  }

  /** The state a frame meets when it reaches a geometry that is not frozen. */
  function Met(c: Config, s: State, f: Frame): State
    requires f.stamp.Some?
  {
    var t := Timed(c, s, f);
    if OtherLifecycle(t, f) then INITIAL.(lastStamp := f.stamp.value) else t
  }

  /** The lifecycle known after a frame that reaches a geometry that is not frozen. */
  lemma {:induction false} MetKnown(c: Config, run: seq<Frame>, f: Frame, s: State)
    requires ValidConfig(c) && s == After(c, run) && Advances(s, f) && f.lifecycle != 0 && (s.geometry.frozen ==> OtherLifecycle(s, f))
    ensures KnownAfter(c, run + [f], |run|) == LifecycleWith(Met(c, s, f), f) && !OtherLifecycle(Met(c, s, f), f)
  {
    AtEnd(c, run, f);
    PendingWindows(c, Met(c, s, f), f);
  }

  lemma {:induction false} MetHeld(c: Config, run: seq<Frame>, f: Frame, s: State)
    requires ValidConfig(c) && s == After(c, run) && Advances(s, f) && (s.geometry.frozen ==> OtherLifecycle(s, f))
    requires !s.geometry.frozen ==> PendingHeld(c, run, s)
    ensures PendingHeld(c, run, Met(c, s, f))
    ensures |Met(c, s, f).shapeWindow| > 0 || |Met(c, s, f).thicknessWindow| > 0 ==> Follows(c, run + [f], |run|)
  {
    var u := Met(c, s, f);
    if u.shapeWindow == [] && u.thicknessWindow == [] {
      EmptyHeld(c, run, u);
    } else {
      FollowsNow(c, run, f);
      var ks: seq<nat> :| ShapeHeld(c, run, ks, s);
      assert ShapeHeld(c, run, ks, u);
      var js: seq<nat> :| HeightHeld(c, run, js, s);
      assert HeightHeld(c, run, js, u);
    }
  }

  lemma EnteredHeld(c: Config, run: seq<Frame>, f: Frame, s: State)
    requires ValidConfig(c) && PendingHeld(c, run, s) && f.lifecycle != 0 && s.lastStamp > 0.0 && !OtherLifecycle(s, f)
    requires |s.shapeWindow| > 0 || |s.thicknessWindow| > 0 ==> Follows(c, run + [f], |run|)
    requires KnownAfter(c, run + [f], |run|) == LifecycleWith(s, f)
    ensures PendingHeld(c, run + [f], PendingStep(c, s, f))
  {
    var t := PendingStep(c, s, f);
    PendingWindows(c, s, f);
    PendingStamp(c, s, f);
    var ks := ShapePushedHeld(c, run, f, s);
    assert ShapeHeld(c, run + [f], ks, t);
    var js := HeightPushedHeld(c, run, f, s);
    assert HeightHeld(c, run + [f], js, t);
  }

  lemma {:induction false} SilentHeld(c: Config, run: seq<Frame>, f: Frame, s: State)
    requires ValidConfig(c) && s == After(c, run) && Advances(s, f) && f.lifecycle == 0 && PendingHeld(c, run, s)
    requires |s.shapeWindow| > 0 || |s.thicknessWindow| > 0 ==> Follows(c, run + [f], |run|)
    ensures PendingHeld(c, run + [f], s.(lastStamp := f.stamp.value, geometry := s.geometry.(valid := false)))
  {
    var t := s.(lastStamp := f.stamp.value, geometry := s.geometry.(valid := false));
    var ks: seq<nat> :| ShapeHeld(c, run, ks, s);
    ShapedCarries(c, run, f, s.geometry.lifecycle, s.geometry.lifecycle, s.shapeSegment);
    OwnedLater(run, f, ks, s.geometry.lifecycle);
    WindowRests(c, run, f, ks, s.shapeWindow,
                Shaped(c, run, s.geometry.lifecycle, s.shapeSegment), Shaped(c, run + [f], s.geometry.lifecycle, s.shapeSegment),
                Shape(c, c.initialConfidence));
    if |ks| > 0 {
      DenseLater(c, run, f, ks);
    }
    assert ShapeHeld(c, run + [f], ks, t);
    var js: seq<nat> :| HeightHeld(c, run, js, s);
    ModedCarries(c, run, f, s.geometry.lifecycle, s.geometry.lifecycle, s.thicknessSegment, s.mode);
    OwnedLater(run, f, js, s.geometry.lifecycle);
    WindowRests(c, run, f, js, s.thicknessWindow,
                Moded(c, run, s.geometry.lifecycle, s.thicknessSegment, s.mode),
                Moded(c, run + [f], s.geometry.lifecycle, s.thicknessSegment, s.mode),
                Height(c));
    if |js| > 0 {
      DenseLater(c, run, f, js);
    }
    assert HeightHeld(c, run + [f], js, t);
  }

  lemma {:induction false} SilentStepHeld(c: Config, run: seq<Frame>, f: Frame, s: State)
    requires ValidConfig(c) && s == After(c, run) && !s.geometry.frozen && PendingHeld(c, run, s)
    requires Advances(s, f) && f.lifecycle == 0
    ensures PendingHeld(c, run + [f], Step(c, s, f))
  {
    var t := Timed(c, s, f);
    if t.shapeWindow == [] && t.thicknessWindow == [] {
      EmptyHeld(c, run + [f], Step(c, s, f));
    } else {
      FollowsNow(c, run, f);
      SilentHeld(c, run, f, s);
    }
  }

  lemma {:induction false} StepPendingHeld(c: Config, run: seq<Frame>, f: Frame, s: State)
    requires ValidConfig(c) && s == After(c, run) && (!s.geometry.frozen ==> PendingHeld(c, run, s))
    requires s.geometry.frozen ==> s.geometry.lifecycle != 0
    ensures !Step(c, s, f).geometry.frozen ==> PendingHeld(c, run + [f], Step(c, s, f))
  {
    if !Advances(s, f) {
      EmptyHeld(c, run + [f], INITIAL);
    } else if s.geometry.frozen && SameCargo(s, f) {
      StaysFrozen(c, s, f);
    } else if f.lifecycle == 0 {
      SilentStepHeld(c, run, f, s);
    } else {
      MetHeld(c, run, f, s);
      MetKnown(c, run, f, s);
      EnteredHeld(c, run, f, Met(c, s, f));
    }
  }

  /** On every run, before the freeze, both windows hold the entries of unbroken chains of frames of one segment. */
  lemma {:induction false} RunPendingHeld(c: Config, run: seq<Frame>)
    requires ValidConfig(c)
    ensures !After(c, run).geometry.frozen ==> PendingHeld(c, run, After(c, run))
  {
    if |run| == 0 {
      EmptyHeld(c, run, INITIAL);
    } else {
      var front, f := run[..|run| - 1], run[|run| - 1];
      assert front + [f] == run;
      RunPendingHeld(c, front);
      RunLifecycle(c, front);
      StepPendingHeld(c, front, f, After(c, front));
    }
  }

  /** The numbers behind a freeze: heights near their median, steady shapes, and the geometry that is adopted from both. */
  ghost predicate FrozenFrom(c: Config, f: Frame, shapes: seq<Size>, heights: seq<real>, g: Geometry) {
    var required := if g.formal then c.confirmFrames else c.positiveConfirmFrames;
    && |shapes| >= required && Steady(c, shapes)
    && CountNear(heights, Median(heights), 0.5 * c.rules.disagreement) >= required && g.height == Median(heights)
    && g.length == Max(Max(MedianSize(shapes).length, c.startLength), Max(c.minLength, f.staticLength))
    && g.width == Max(Max(MedianSize(shapes).width, c.startWidth), Max(c.minWidth, f.staticWidth))
  }

  predicate Agreeing(c: Config, heights: seq<real>, height: real, required: nat) {
    && Abs(height - Median(heights)) <= 0.5 * c.rules.disagreement
    && CountNear(heights, Median(heights), 0.5 * c.rules.disagreement) >= required
  }

  lemma TallyExactly(c: Config, heights: seq<real>, formal: bool, e: Estimate, required: nat)
    requires required > 0
    ensures Tally(c, heights, formal, e).0 >= required <==> Agreeing(c, heights, e.height, required)
    ensures Tally(c, heights, formal, e).0 >= required ==> Tally(c, heights, formal, e).1.height == Median(heights)
  {}

  lemma FreezeIfExactly(c: Config, s: State, f: Frame, formal: bool, confirmed: nat, e: Estimate)
    requires !s.geometry.frozen && f.centre.Some? && f.yaw.Some?
    ensures var required := if formal then c.confirmFrames else c.positiveConfirmFrames;
            var t := FreezeIf(c, s, f, formal, confirmed, e); var shapes := Good(s.shapeWindow);
            && (t.geometry.frozen <==> confirmed >= required && |shapes| >= required && Steady(c, shapes))
            && (t.geometry.frozen ==>
                  && t.geometry.formal == formal && t.geometry.height == e.height
                  && t.geometry.length == Max(Max(MedianSize(shapes).length, c.startLength), Max(c.minLength, f.staticLength))
                  && t.geometry.width == Max(Max(MedianSize(shapes).width, c.startWidth), Max(c.minWidth, f.staticWidth)))
  {}

  lemma ConfirmFreezesIf(c: Config, s: State, f: Frame, formal: bool, e: Estimate)
    requires ValidConfig(c) && !s.geometry.frozen && f.centre.Some? && f.yaw.Some?
    ensures var required := if formal then c.confirmFrames else c.positiveConfirmFrames;
            var shapes, heights := Good(s.shapeWindow), Good(SetLast(s.thicknessWindow, e.height));
            && (Confirm(c, s, f, formal, e).geometry.frozen <==>
                  Agreeing(c, heights, e.height, required) && |shapes| >= required && Steady(c, shapes))
            && (Confirm(c, s, f, formal, e).geometry.frozen ==>
                  FrozenFrom(c, f, shapes, heights, Confirm(c, s, f, formal, e).geometry))
  {
    var required := if formal then c.confirmFrames else c.positiveConfirmFrames;
    var t := s.(thicknessWindow := SetLast(s.thicknessWindow, e.height));
    var heights := Good(t.thicknessWindow);
    var (confirmed, r) := Tally(c, heights, formal, e);
    TallyExactly(c, heights, formal, e, required);
    FreezeIfExactly(c, t, f, formal, confirmed, r);
  }

  /** Enough heights near their median, this frame's among them, and enough steady shapes. */
  ghost predicate Ripe(c: Config, f: Frame, shapes: seq<Size>, heights: seq<real>) {
    var required := if Gather(c, f).pair.Some? then c.confirmFrames else c.positiveConfirmFrames;
    && HeightOf(c, f).Some? && Agreeing(c, heights, HeightOf(c, f).value, required)
    && |shapes| >= required && Steady(c, shapes)
  }

  /** Exactly when a frame freezes the geometry, and from what. */
  lemma FreezesExactly(c: Config, s: State, f: Frame)
    requires ValidConfig(c) && !s.geometry.frozen
    ensures PendingStep(c, s, f).geometry.frozen <==> Ripe(c, f, Good(ShapePushed(c, s, f)), Good(HeightPushed(c, s, f)))
    ensures PendingStep(c, s, f).geometry.frozen ==>
              FrozenFrom(c, f, Good(ShapePushed(c, s, f)), Good(HeightPushed(c, s, f)), PendingStep(c, s, f).geometry)
  {
    if Placed(f) {
      PlacedStep(c, s, f);
      ReadiedWindows(c, s, f);
      PlacedWindows(c, s, f);
      if HeightOf(c, f).Some? {
        var u, e := Readied(c, s, f), Gather(c, f);
        ConfirmWindows(c, u, f, e.pair.Some?, Estimated(c, e));
        ConfirmFreezesIf(c, u, f, e.pair.Some?, Estimated(c, e));
      }
    }
  }

  /** What the freezing frame meets. */
  lemma {:induction false} FreezeMet(c: Config, run: seq<Frame>, f: Frame)
    requires ValidConfig(c) && !After(c, run).geometry.frozen && Step(c, After(c, run), f).geometry.frozen
    ensures f.stamp.Some? && f.lifecycle != 0
    ensures var u := Met(c, After(c, run), f);
            && !u.geometry.frozen && Step(c, After(c, run), f) == PendingStep(c, u, f) && !OtherLifecycle(u, f)
            && PendingHeld(c, run, u) && KnownAfter(c, run + [f], |run|) == LifecycleWith(u, f)
            && (|u.shapeWindow| > 0 || |u.thicknessWindow| > 0 ==> Follows(c, run + [f], |run|))
  {
    RunPendingHeld(c, run);
    MetHeld(c, run, f, After(c, run));
    MetKnown(c, run, f, After(c, run));
  }

  /**
   On every run, the frame that freezes the geometry ends two unbroken chains of frames of its segment,
   from the first placed one on all of its lifecycle: the steady shapes of the one and the heights of the other, all
   of one evidence mode and enough of them near their median, are exactly what the frozen size and
   height are taken from.
   */
  lemma FreezeIsBacked(c: Config, run: seq<Frame>, f: Frame) returns (ks: seq<nat>, shapes: Window, js: seq<nat>, heights: seq<Option<real>>)
    requires ValidConfig(c) && !After(c, run).geometry.frozen && Step(c, After(c, run), f).geometry.frozen
    ensures |ks| > 0 && ks[|ks| - 1] == |run| && Dense(c, run + [f], ks) && Owned(run + [f], ks, f.lifecycle)
    ensures WindowOf(c, run + [f], ks, shapes, Shaped(c, run + [f], f.lifecycle, f.segment), Shape(c, c.initialConfidence))
    ensures |js| > 0 && js[|js| - 1] == |run| && Dense(c, run + [f], js) && Owned(run + [f], js, f.lifecycle)
    ensures var mode := Some(Step(c, After(c, run), f).geometry.formal);
            WindowOf(c, run + [f], js, heights, Moded(c, run + [f], f.lifecycle, f.segment, mode), Height(c))
    ensures FrozenFrom(c, f, Good(shapes), Good(heights), Step(c, After(c, run), f).geometry)
  {
    FreezeMet(c, run, f);
    var u := Met(c, After(c, run), f);
    FreezeIsConfirmed(c, u, f);
    FreezesExactly(c, u, f);
    ks := ShapePushedHeld(c, run, f, u);
    js := HeightPushedHeld(c, run, f, u);
    shapes, heights := ShapePushed(c, u, f), HeightPushed(c, u, f);
  }

  /** Frame i of the chain stands before every placed one. */
  ghost predicate Early(run: seq<Frame>, ks: seq<nat>, i: nat) {
    i < |ks| && forall j :: 0 <= j <= i && ks[j] < |run| ==> !Placed(run[ks[j]])
  }

  ghost predicate OwnShape(c: Config, run: seq<Frame>, ks: seq<nat>, i: nat, lifecycle: nat) {
    i < |ks| && ks[i] < |run| && (SizeOf(c, run[ks[i]], c.initialConfidence).Some? ==> run[ks[i]].lifecycle == lifecycle)
  }

  lemma OwnedOutsideEarly(c: Config, run: seq<Frame>, ks: seq<nat>, lifecycle: nat)
    requires Owned(run, ks, lifecycle) && forall i :: 0 <= i < |ks| ==> ks[i] < |run|
    ensures (forall i: nat :: i < |ks| ==> OwnShape(c, run, ks, i, lifecycle)) <==>
              (forall i: nat :: Early(run, ks, i) ==> OwnShape(c, run, ks, i, lifecycle))
  {
    forall i: nat | i < |ks| && !Early(run, ks, i) ensures OwnShape(c, run, ks, i, lifecycle) {
      var j :| 0 <= j <= i && ks[j] < |run| && Placed(run[ks[j]]);
    }
  }

  lemma HeightsOwned(c: Config, run: seq<Frame>, js: seq<nat>, heights: seq<Option<real>>, counts: nat -> bool, lifecycle: nat)
    requires WindowOf(c, run, js, heights, counts, Height(c)) && Owned(run, js, lifecycle)
    ensures forall i :: 0 <= i < |js| && heights[i].Some? ==> js[i] < |run| && run[js[i]].lifecycle == lifecycle
  {
    forall i | 0 <= i < |js| && heights[i].Some? ensures run[js[i]].lifecycle == lifecycle {
      assert heights[i] == Height(c)(run[js[i]]);
    }
  }

  /**
   On every run the shapes behind a freeze are all of its lifecycle if and only if those of the unplaced frames
   before the first placed one of their chain are; the heights behind it always are.
   */
  lemma FreezeOwnsShapes(c: Config, run: seq<Frame>, f: Frame) returns (ks: seq<nat>, shapes: Window, js: seq<nat>, heights: seq<Option<real>>)
    requires ValidConfig(c) && !After(c, run).geometry.frozen && Step(c, After(c, run), f).geometry.frozen
    ensures WindowOf(c, run + [f], ks, shapes, Shaped(c, run + [f], f.lifecycle, f.segment), Shape(c, c.initialConfidence))
    ensures FrozenFrom(c, f, Good(shapes), Good(heights), Step(c, After(c, run), f).geometry)
    ensures (forall i: nat :: i < |ks| ==> OwnShape(c, run + [f], ks, i, f.lifecycle)) <==>
              (forall i: nat :: Early(run + [f], ks, i) ==> OwnShape(c, run + [f], ks, i, f.lifecycle))
    ensures |js| == |heights|
    ensures forall i :: 0 <= i < |js| && heights[i].Some? ==> js[i] < |run| + 1 && (run + [f])[js[i]].lifecycle == f.lifecycle
  {
    ks, shapes, js, heights := FreezeIsBacked(c, run, f);
    OwnedOutsideEarly(c, run + [f], ks, f.lifecycle);
    HeightsOwned(c, run + [f], js, heights, Moded(c, run + [f], f.lifecycle, f.segment, Some(Step(c, After(c, run), f).geometry.formal)), f.lifecycle);
  }
}
