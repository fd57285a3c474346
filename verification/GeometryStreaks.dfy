/**
 Chains of frames: positions of a run that count towards one confirmation, with only silent frames
 between and behind them, each following the frame before it without a gap.
 */
module GeometryStreaks {
  import opened Prelude
  import opened Positions
  import opened GeometryFusion
  import opened GeometryRuns

  function At(c: Config, run: seq<Frame>, k: nat): State
    requires k <= |run|
  {
    After(c, run[..k])
  }

  /** An advancing frame without a cargo lifecycle: it touches no confirmation. */
  ghost function Silent(c: Config, run: seq<Frame>): nat -> bool {
    (k: nat) => k < |run| && run[k].lifecycle == 0 && Advances(At(c, run, k), run[k])
  }

  /** The frame comes after the one right before it, within the observation gap. */
  predicate Follows(c: Config, run: seq<Frame>, k: nat) {
    && 0 < k < |run| && run[k - 1].stamp.Some? && run[k].stamp.Some?
    && 0.0 < run[k].stamp.value - run[k - 1].stamp.value <= c.maxGap
  }

  /** ks count and reach to the end of the run; all but the first follow without a gap. */
  ghost predicate Chain(c: Config, run: seq<Frame>, ks: seq<nat>, counts: nat -> bool) {
    && Streak(ks, |run|, counts, Silent(c, run))
    && forall i :: 0 < i < |ks| ==> Follows(c, run, ks[i])
  }

  /** The frame reaches the frozen geometry. */
  ghost predicate Reaches(c: Config, run: seq<Frame>, f: Frame, s: State) {
    && s == After(c, run) && s.geometry.frozen && Advances(s, f) && f.lifecycle != 0 && f.lifecycle == s.geometry.lifecycle
  }

  /** What counts in a run counts in a longer one. */
  ghost predicate Carries(run: seq<Frame>, counts: nat -> bool, counts': nat -> bool) {
    forall k: nat :: k < |run| && counts(k) ==> counts'(k)
  }

  lemma AtLater(c: Config, run: seq<Frame>, f: Frame, k: nat)
    requires k <= |run|
    ensures At(c, run + [f], k) == At(c, run, k)
  {
    assert (run + [f])[..k] == run[..k];
  }

  lemma {:induction false} AtEnd(c: Config, run: seq<Frame>, f: Frame)
    ensures At(c, run + [f], |run|) == After(c, run) && (run + [f])[|run|] == f
  {
    assert (run + [f])[..|run|] == run;
  }

  lemma FollowsLater(c: Config, run: seq<Frame>, f: Frame, k: nat)
    requires Follows(c, run, k)
    ensures Follows(c, run + [f], k)
  {}

  lemma StreakLonger(c: Config, run: seq<Frame>, f: Frame, ks: seq<nat>, counts: nat -> bool, counts': nat -> bool)
    requires Chain(c, run, ks, counts) && Carries(run, counts, counts')
    ensures Streak(ks, |run|, counts', Silent(c, run + [f]))
  {
    forall k: nat | k < |run| ensures At(c, run + [f], k) == At(c, run, k) {
      AtLater(c, run, f, k);
    }
    StreakLater(ks, |run|, counts, Silent(c, run), counts', Silent(c, run + [f]));
  }

  lemma {:induction false} ChainRests(c: Config, run: seq<Frame>, f: Frame, ks: seq<nat>, counts: nat -> bool, counts': nat -> bool)
    requires Chain(c, run, ks, counts) && Carries(run, counts, counts')
    requires f.lifecycle == 0 && Advances(After(c, run), f)
    ensures Chain(c, run + [f], ks, counts')
  {
    StreakLonger(c, run, f, ks, counts, counts');
    AtEnd(c, run, f);
    StreakRests(ks, |run|, counts', Silent(c, run + [f]));
    forall i | 0 < i < |ks| ensures Follows(c, run + [f], ks[i]) {
      FollowsLater(c, run, f, ks[i]);
    }
  }

  lemma ChainGrows(c: Config, run: seq<Frame>, f: Frame, ks: seq<nat>, counts: nat -> bool, counts': nat -> bool)
    requires Chain(c, run, ks, counts) && Carries(run, counts, counts') && counts'(|run|)
    requires |ks| > 0 ==> Follows(c, run + [f], |run|)
    ensures Chain(c, run + [f], ks + [|run|], counts')
  {
    StreakLonger(c, run, f, ks, counts, counts');
    StreakGrows(ks, |run|, counts', Silent(c, run + [f]));
    var more := ks + [|run|];
    forall i | 0 < i < |more| ensures Follows(c, run + [f], more[i]) {
      if i < |ks| {
        FollowsLater(c, run, f, ks[i]);
      }
    }
  }

  lemma ChainStarts(c: Config, run: seq<Frame>, f: Frame, counts: nat -> bool)
    requires counts(|run|)
    ensures Chain(c, run + [f], [|run|], counts)
  {}

  /** The last positions of a chain are a chain. */
  lemma ChainEnds(c: Config, run: seq<Frame>, ks: seq<nat>, counts: nat -> bool, n: nat)
    requires Chain(c, run, ks, counts)
    ensures Chain(c, run, LastN(ks, n), counts)
  {
    var tail := LastN(ks, n);
    var d := |ks| - |tail|;
    forall p: nat | |tail| > 0 && tail[0] < p < |run| && p !in tail ensures Silent(c, run)(p) {
      forall i | 0 <= i < |ks| ensures ks[i] != p {
        assert i >= d ==> tail[i - d] == ks[i];
        assert i < d ==> ks[i] < ks[d] == tail[0];
      }
    }
    forall i | 0 < i < |tail| ensures Follows(c, run, tail[i]) {
      assert tail[i] == ks[i + d];
    }
  }

  lemma FrozenStamp(c: Config, s: State, f: Frame, continuous: bool)
    ensures FrozenStep(c, s, f, continuous).lastStamp == s.lastStamp
  {
    PoisedFrame(c, s, f, continuous);
    DimensionsFrame(c, Poised(c, s, f, continuous), f);
  }

  lemma PendingStamp(c: Config, s: State, f: Frame)
    ensures PendingStep(c, s, f).lastStamp == s.lastStamp
  {}

  lemma StepStamp(c: Config, s: State, f: Frame)
    requires ValidConfig(c)
    ensures Step(c, s, f).lastStamp == (if Advances(s, f) then f.stamp.value else 0.0)
  {
    if Advances(s, f) && f.lifecycle != 0 {
      var t := Timed(c, s, f);
      var u := if OtherLifecycle(t, f) then INITIAL.(lastStamp := f.stamp.value) else t;
      FrozenStamp(c, u, f, Continuous(c, s.lastStamp, f.stamp.value));
      PendingStamp(c, u, f);
    }
  }

  /** The clock shows the stamp of the last frame of the run, if that frame advanced it. */
  lemma {:induction false} LastStamp(c: Config, run: seq<Frame>)
    requires ValidConfig(c) && After(c, run).lastStamp > 0.0
    ensures |run| > 0 && run[|run| - 1].stamp == Some(After(c, run).lastStamp)
  {
    var s, f := After(c, run[..|run| - 1]), run[|run| - 1];
    assert After(c, run) == Step(c, s, f);
    StepStamp(c, s, f);
  }

  lemma {:induction false} FollowsNow(c: Config, run: seq<Frame>, f: Frame)
    requires ValidConfig(c) && After(c, run).lastStamp > 0.0 && Advances(After(c, run), f)
    requires Continuous(c, After(c, run).lastStamp, f.stamp.value)
    ensures Follows(c, run + [f], |run|)
  {
    LastStamp(c, run);
  }

  lemma PendingLifecycle(c: Config, s: State, f: Frame)
    requires !s.geometry.frozen && f.lifecycle != 0
    ensures PendingStep(c, s, f).geometry.frozen ==> PendingStep(c, s, f).geometry.lifecycle == f.lifecycle
  {
    if PendingStep(c, s, f).geometry.frozen {
      FreezeIsConfirmed(c, s, f);
    }
  }

  lemma StepLifecycle(c: Config, s: State, f: Frame)
    requires ValidConfig(c) && (s.geometry.frozen ==> s.geometry.lifecycle != 0)
    ensures Step(c, s, f).geometry.frozen ==> Step(c, s, f).geometry.lifecycle != 0
  {
    if Advances(s, f) && f.lifecycle != 0 {
      var t := Timed(c, s, f);
      var u := if OtherLifecycle(t, f) then INITIAL.(lastStamp := f.stamp.value) else t;
      if u.geometry.frozen {
        StaysFrozen(c, s, f);
      } else {
        PendingLifecycle(c, u, f);
      }
    }
  }

  /** On every run a frozen geometry belongs to a lifecycle. */
  lemma {:induction false} RunLifecycle(c: Config, run: seq<Frame>)
    requires ValidConfig(c)
    ensures After(c, run).geometry.frozen ==> After(c, run).geometry.lifecycle != 0
  {
    if |run| > 0 {
      RunLifecycle(c, run[..|run| - 1]);
      StepLifecycle(c, After(c, run[..|run| - 1]), run[|run| - 1]);
    }
  }

  /** A frozen geometry ignores a silent frame, however late it comes: only validity and the clock change. */
  lemma SilentStep(c: Config, s: State, f: Frame)
    requires ValidConfig(c) && s.geometry.frozen && Advances(s, f) && f.lifecycle == 0
    ensures Step(c, s, f) == s.(lastStamp := f.stamp.value, geometry := s.geometry.(valid := false))
  {}
}
