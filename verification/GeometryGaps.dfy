/** A run in which a frame without a lifecycle bridges an observation gap in both confirmations of a frozen geometry. */
module GeometryGaps {
  import opened Prelude
  import opened GeometryThickness
  import opened GeometryFusion
  import opened GeometryRuns
  import opened GeometryStreaks
  import opened GeometryPromotion
  import opened GeometryExpansion
  import opened GeometryWindows
  import opened GeometryExamples

  const ORIGIN := Thickness(StaticOrigin, Full, 1.0, 0.1, 1.0, true)

  /** A locked square of two and a half metres with a static and a live measurement of one height. */
  function Locked(stamp: real): Frame {
    Square(1, stamp, Some(0.0), 2.5, 0.0).(formalLocked := true, thickness := [ORIGIN, LIVE])
  }

  /** A frame without a lifecycle. */
  function Nothing(stamp: real): Frame {
    Square(0, stamp, Some(0.0), 2.5, 0.0)
  }

  /** A frozen positive-only square of two metres: n frames promote it and n measured two and a half metres. */
  predicate Waiting(s: State, n: nat, stamp: real) {
    && s.geometry.frozen && !s.geometry.formal && s.geometry.lifecycle == 1 && SizeNow(s.geometry) == Size(2.0, 2.0)
    && s.lastStamp == stamp && s.promotionSegment == 0 && s.promotionCount == n
    && s.expansion == Expansion(n, 0, if n == 0 then NO_SIZE else Size(2.5, 2.5))
  }

  lemma {:induction false} BestOfTwo(r: Rules, source: Source, fullOnly: bool)
    requires r == Sample().rules
    ensures Best(r, [ORIGIN, LIVE], source, fullOnly) ==
              if source == StaticOrigin then Some(ORIGIN) else if source == LiveExtent then Some(LIVE) else None
  {
    assert [ORIGIN, LIVE][..1] == [ORIGIN];
    assert [ORIGIN][..0] == [];
    assert Best(r, [], source, fullOnly).None?;
  }

  lemma LockedPromotes(stamp: real)
    ensures Promotes(Sample(), Locked(stamp))
  {
    var r := Sample().rules;
    BestOfTwo(r, StaticOrigin, false);
    BestOfTwo(r, RevealedSupport, false);
    BestOfTwo(r, LiveExtent, true);
    assert FusePair(r, ORIGIN, LIVE).uncertainty == 0.0;
  }

  /** How many frames stand behind a confirmation that the next frame, at this stamp, may continue. */
  function Standing(n: nat, last: real, stamp: real): nat {
    if stamp - last <= Sample().maxGap then n else 0
  }

  lemma LockedCounts(s: State, n: nat, last: real, stamp: real)
    requires Waiting(s, n, last) && 0.0 < last < stamp
    ensures var t, m := Promotion(Sample(), Timed(Sample(), s, Locked(stamp)), Locked(stamp), Continuous(Sample(), last, stamp)), Standing(n, last, stamp);
            && t.promotionSegment == 0 && t.promotionCount == m + 1 && (t.geometry.formal <==> m + 1 >= 3)
            && t.expansion == s.expansion
  {
    LockedPromotes(stamp);
  }

  lemma LockedGrows(j: State, m: nat, stamp: real)
    requires SizeNow(j.geometry) == Size(2.0, 2.0) && j.expansion == Expansion(m, 0, if m == 0 then NO_SIZE else Size(2.5, 2.5))
    ensures var t := Dimensions(Sample(), j, Locked(stamp));
            if m + 1 >= 3 then SizeNow(t.geometry) == Size(2.5, 2.5)
            else t.geometry == j.geometry && t.expansion == Expansion(m + 1, 0, Size(2.5, 2.5))
  {}

  lemma LockedJudged(s: State, n: nat, last: real, stamp: real)
    requires Waiting(s, n, last) && 0.0 < last < stamp
    ensures var j, m := Judging(Sample(), s, Locked(stamp)), Standing(n, last, stamp);
            && SizeNow(j.geometry) == Size(2.0, 2.0) && j.expansion == Expansion(m, 0, if m == 0 then NO_SIZE else Size(2.5, 2.5))
  {
    var f := Locked(stamp);
    PoisedFrame(Sample(), Timed(Sample(), s, f), f, Continuous(Sample(), last, stamp));
    ReadyPoised(Sample(), Timed(Sample(), s, f), f, Continuous(Sample(), last, stamp));
  }

  /** A locked square is one frame more behind both confirmations, or completes them as the third. */
  lemma LockedStep(s: State, n: nat, last: real, stamp: real)
    requires Waiting(s, n, last) && 0.0 < last < stamp
    ensures var t, m := Step(Sample(), s, Locked(stamp)), Standing(n, last, stamp);
            if m + 1 >= 3 then t.geometry.formal && SizeNow(t.geometry) == Size(2.5, 2.5) else Waiting(t, m + 1, stamp)
  {
    var f := Locked(stamp);
    var m := Standing(n, last, stamp);
    LockedCounts(s, n, last, stamp);
    FrozenKeepsCount(Sample(), Timed(Sample(), s, f), f, Continuous(Sample(), last, stamp));
    StaysFrozen(Sample(), s, f);
    StepSizes(Sample(), s, f);
    LockedJudged(s, n, last, stamp);
    LockedGrows(Judging(Sample(), s, f), m, stamp);
  }

  lemma NothingStep(s: State, n: nat, last: real, stamp: real)
    requires Waiting(s, n, last) && 0.0 < last < stamp
    ensures Waiting(Step(Sample(), s, Nothing(stamp)), n, stamp)
  {
    SilentStep(Sample(), s, Nothing(stamp));
  }

  lemma PendingKeepsStreaks(c: Config, s: State, f: Frame)
    requires s.expansion.segment == f.segment
    ensures var t := PendingStep(c, s, f);
            t.expansion == s.expansion && t.promotionSegment == s.promotionSegment && t.promotionCount == s.promotionCount
  {}

  lemma FirstWaits()
    ensures Waiting(After(Sample(), [Square(1, 1.0, Some(0.0), 2.0, 0.0)]), 0, 1.0)
  {
    var f := Square(1, 1.0, Some(0.0), 2.0, 0.0);
    var u := INITIAL.(lastStamp := 1.0);
    FirstSquareFreezes(f);
    PendingIsStep(INITIAL, f);
    PendingKeepsStreaks(Sample(), u, f);
    FreezeIsConfirmed(Sample(), u, f);
  }

  lemma {:induction false} AfterNext(run: seq<Frame>, f: Frame)
    ensures After(Sample(), run + [f]) == Step(Sample(), After(Sample(), run), f)
  {
    assert (run + [f])[..|run|] == run;
  }

  lemma {:induction false} RunWaits(run: seq<Frame>, n: nat, last: real, stamp: real)
    requires Waiting(After(Sample(), run), n, last) && 0.0 < last < stamp && Standing(n, last, stamp) < 2
    ensures Waiting(After(Sample(), run + [Locked(stamp)]), Standing(n, last, stamp) + 1, stamp)
  {
    AfterNext(run, Locked(stamp));
    LockedStep(After(Sample(), run), n, last, stamp);
  }

  /** A frozen square of two metres and two locked larger ones. */
  function Begun(): seq<Frame> {
    [Square(1, 1.0, Some(0.0), 2.0, 0.0)] + [Locked(1.5)] + [Locked(2.0)]
  }

  lemma TwoWait()
    ensures Waiting(After(Sample(), Begun()), 2, 2.0)
  {
    var run := [Square(1, 1.0, Some(0.0), 2.0, 0.0)];
    FirstWaits();
    RunWaits(run, 0, 1.0, 1.5);
    RunWaits(run + [Locked(1.5)], 1, 1.5, 2.0);
  }

  /**
   Three frames confirm, at most a second apart. A hundred seconds after the second of them the third comes too late:
   it starts both confirmations again. If a frame without a lifecycle comes right before it, as late as it is, the
   third completes both: the geometry is formal and has grown.
   */
  lemma GapBridged()
    ensures var c, s := Sample(), After(Sample(), Begun());
            && s.promotionCount == 2 && s.expansion.count == 2 && s.lastStamp == 2.0
            && var late := Step(c, s, Locked(102.0));
               !late.geometry.formal && late.promotionCount == 1 && late.expansion.count == 1 && late.geometry.length == 2.0
    ensures var c := Sample(); var run := Begun() + [Nothing(101.9)]; var t := Step(c, After(c, run), Locked(102.0));
            t.geometry.formal && t.geometry.length == 2.5
  {
    var s := After(Sample(), Begun());
    TwoWait();
    LockedStep(s, 2, 2.0, 102.0);
    AfterNext(Begun(), Nothing(101.9));
    NothingStep(s, 2, 2.0, 101.9);
    LockedStep(After(Sample(), Begun() + [Nothing(101.9)]), 2, 101.9, 102.0);
  }
}
