/** Runs of the cargo-bottom estimator that show where it does less than a natural reading promises. */
module BottomExamples {
  import opened Prelude
  import opened BottomAccumulation
  import opened BottomFusion
  import opened BottomRuns
  import opened BottomGate
  import opened BottomHold
  import opened BottomLate

  const SAMPLE_CONFIG := Config(Limits(100, 0.5, 0.01), 1.0, 0.5, 0.3, 0.05, 0.2, 0.5, 3, 0.1, 0.1, 3.0, true)

  /** Track 7 with a cargo of one metre below the given top. */
  function Sample(stamp: real, authority: Authority, top: real): Observation {
    Observation(true, true, stamp, 7, authority, [], None, Some(top), true, Some(1.0), true, None, None, None, None, None, true)
  }

  /** The same, measured against the map instead. */
  function MapSample(stamp: real, authority: Authority, top: real): Observation {
    Sample(stamp, authority, top).(topSupported := false, frozen := None, mapDiff := Some(1.0))
  }

  /** Track 7 without vertical evidence. */
  function Blind(stamp: real, authority: Authority): Observation {
    Sample(stamp, authority, 0.0).(top := None, topSupported := false, frozen := None)
  }

  const LEVEL := Level(DirectTop, false, Span(1.0, 2.0))
  const ANSWER := Result(true, Some(Output(DirectTop, Span(1.0, 2.0), false)))

  lemma {:induction false} AfterOne(c: Config, o: Observation)
    ensures After(c, [o]) == Step(c, INITIAL, o).0
  {
    assert [o][..0] == [];
    assert After(c, []) == INITIAL;
  }

  lemma {:induction false} AfterMore(c: Config, run: seq<Observation>, o: Observation)
    ensures After(c, run + [o]) == Step(c, After(c, run), o).0
  {
    assert (run + [o])[..|run|] == run;
  }

  /** A cargo at one to two metres is published as measured, first or again. */
  lemma SampleOutput(s: State, o: Observation)
    requires o == Sample(o.stamp, o.authority, 2.0)
    requires Admit(SAMPLE_CONFIG, s, o) == Proceed && (TrackChanged(s, o) || s.final == Some(LEVEL))
    ensures var (t, r) := Step(SAMPLE_CONFIG, s, o);
            && r == ANSWER && t.final == Some(LEVEL) && t.track == Some((7, o.authority)) && t.lastStamp == o.stamp
            && t.lastResult == Some(ANSWER) && t.stable == Some(Stable(7, o.stamp, Span(1.0, 2.0), None)) && t.ema.None?
            && !t.pending.active && (TrackChanged(s, o) ==> t.pending == NO_PENDING && t.store.frames == [])
  {}

  /** The state behind one sample. */
  lemma FirstSample(o: Observation)
    requires o == Sample(o.stamp, o.authority, 2.0) && o.stamp >= 0.0
    ensures var t := After(SAMPLE_CONFIG, [o]);
            && t.final == Some(LEVEL) && t.track == Some((7, o.authority)) && t.lastStamp == o.stamp
            && t.lastResult == Some(ANSWER) && t.stable == Some(Stable(7, o.stamp, Span(1.0, 2.0), None)) && t.ema.None?
            && t.pending == NO_PENDING && t.store.frames == []
  {
    AfterOne(SAMPLE_CONFIG, o);
    SampleOutput(INITIAL, o);
  }

  // ---------------------------------------------------------------- late and repeated updates

  /**
   Two runs that roll the clock back by five seconds: with the same authority the update resets and
   reports nothing, with another authority it is processed against the old output and published.
   */
  lemma RollbackUnderNewAuthority()
    ensures var c, first := SAMPLE_CONFIG, Sample(10.0, Some(1), 2.0);
            var s := After(c, [first]);
            && Late(c, s, Sample(5.0, Some(1), 2.0)) && Late(c, s, Sample(5.0, Some(2), 2.0))
            && Step(c, s, Sample(5.0, Some(1), 2.0)).1 == NOTHING && Step(c, s, Sample(5.0, Some(1), 2.0)).0.final.None?
            && CarriesMemory(c, s, Sample(5.0, Some(2), 2.0)) && Step(c, s, Sample(5.0, Some(2), 2.0)).1 == ANSWER
  {
    var c, first := SAMPLE_CONFIG, Sample(10.0, Some(1), 2.0);
    var s := After(c, [first]);
    FirstSample(first);
    LateForgets(c, s, Sample(5.0, Some(1), 2.0));
    LateForgets(c, s, Sample(5.0, Some(2), 2.0));
    SampleOutput(s, Sample(5.0, Some(2), 2.0));
  }

  /** A cargo one metre lower at the same stamp: answered from memory under the same authority, published as measured under another. */
  lemma RepeatUnderNewAuthority()
    ensures var c, first := SAMPLE_CONFIG, Sample(10.0, Some(1), 2.0);
            var s := After(c, [first]);
            && Step(c, s, Sample(10.0, Some(1), 1.0)) == (s, ANSWER)
            && Step(c, s, Sample(10.0, Some(2), 1.0)).1.output == Some(Output(DirectTop, Span(0.0, 1.0), false))
  {
    var c, first := SAMPLE_CONFIG, Sample(10.0, Some(1), 2.0);
    var s := After(c, [first]);
    FirstSample(first);
    RepeatedAnswer(c, s, Sample(10.0, Some(1), 1.0));
    LowSample(s, Sample(10.0, Some(2), 1.0));
  }

  lemma LowSample(s: State, o: Observation)
    requires o == Sample(o.stamp, o.authority, 1.0) && s.final == Some(LEVEL)
    requires Admit(SAMPLE_CONFIG, s, o) == Proceed && !TrackChanged(s, o)
    ensures Step(SAMPLE_CONFIG, s, o).1.output == Some(Output(DirectTop, Span(0.0, 1.0), false))
  {}

  /** Under an invalid authority the same update is processed once more, and happens to get the same answer. */
  lemma RepeatUnderInvalidAuthority()
    ensures var c, first := SAMPLE_CONFIG, Sample(10.0, None, 2.0);
            var s := After(c, [first]);
            Admit(c, s, first) == Proceed && Step(c, s, first).1 == ANSWER
  {
    var first := Sample(10.0, None, 2.0);
    FirstSample(first);
    SampleOutput(After(SAMPLE_CONFIG, [first]), first);
  }

  // ---------------------------------------------------------------- pending jumps

  /** An absolute ask for two to three metres is held, and the time counts from it. */
  lemma SampleAsks(s: State, o: Observation)
    requires o == Sample(o.stamp, o.authority, 3.0) && s.final == Some(LEVEL) && !s.pending.active
    requires Admit(SAMPLE_CONFIG, s, o) == Proceed && !TrackChanged(s, o)
    ensures var t := Step(SAMPLE_CONFIG, s, o).0;
            && AbsoluteAsk(SAMPLE_CONFIG, s, o)
            && t.final == Some(LEVEL) && t.lastStamp == o.stamp && t.stable == s.stable && t.lastResult.Some? && t.ema.None?
            && t.pending.active && t.pending.source == DirectTop && t.pending.lastPositive == o.stamp
            && t.track == (if AuthorityChanged(s, o) then Some((7, o.authority)) else s.track)
  {}

  /** A map-based ask for two to three metres is held, and the time counts from before it. */
  lemma MapSampleAsks(s: State, o: Observation)
    requires o == MapSample(o.stamp, o.authority, 3.0) && s.final == Some(LEVEL) && s.ema.None?
    requires s.pending.active ==> s.pending.source == DirectTop
    requires Admit(SAMPLE_CONFIG, s, o) == Proceed && !TrackChanged(s, o)
    ensures var t := Step(SAMPLE_CONFIG, s, o).0;
            && Asks(SAMPLE_CONFIG, s, o, 7, MapDiff, Span(2.0, 3.0))
            && t.final == Some(LEVEL) && t.lastStamp == o.stamp && t.stable == s.stable && t.lastResult.Some?
            && t.pending.active && t.pending.source == MapDiff && t.pending.lastPositive == s.pending.lastPositive
            && t.track == (if AuthorityChanged(s, o) then Some((7, o.authority)) else s.track)
  {}

  lemma BlindIsUnseen(s: State, o: Observation)
    requires o == Blind(o.stamp, o.authority) && s.final == Some(LEVEL) && Admit(SAMPLE_CONFIG, s, o) == Proceed && !TrackChanged(s, o)
    requires s.stable.Some? && s.stable.value.span == Span(1.0, 2.0)
    ensures Unseen(SAMPLE_CONFIG, s, o)
  {
    PreparedKeeps(SAMPLE_CONFIG, s, o);
  }

  /** What the runs below know of a state: the last output, its stable copy, the clock, and the pending jump. */
  predicate Shows(s: State, authority: Authority, stable: real, stamp: real, source: Source, positive: real) {
    && s.final == Some(LEVEL) && s.track == Some((7, authority)) && s.stable == Some(Stable(7, stable, Span(1.0, 2.0), None))
    && s.lastStamp == stamp && s.lastResult.Some? && s.ema.None? == (source == DirectTop)
    && s.pending.active && s.pending.source == source && s.pending.lastPositive == positive
  }

  /** The state behind the first sample: its output, its stable copy, the clock, and no pending jump. */
  predicate Fresh(s: State, stamp: real) {
    && s.final == Some(LEVEL) && s.track == Some((7, Some(1))) && s.stable == Some(Stable(7, stamp, Span(1.0, 2.0), None))
    && s.lastStamp == stamp && s.lastResult.Some? && s.ema.None? && s.pending == NO_PENDING
  }

  lemma StaticAskShown(s: State, ask: Observation)
    requires Fresh(s, 9.9) && ask == MapSample(10.0, Some(1), 3.0)
    ensures Shows(Step(SAMPLE_CONFIG, s, ask).0, Some(1), 9.9, 10.0, MapDiff, 0.0)
  {
    MapSampleAsks(s, ask);
  }

  lemma BlindEnds(s: State, o: Observation)
    requires o == Blind(10.1, Some(1)) && Shows(s, Some(1), 9.9, 10.0, MapDiff, 0.0)
    ensures Unseen(SAMPLE_CONFIG, s, o) && !Step(SAMPLE_CONFIG, s, o).0.pending.active
  {
    BlindIsUnseen(s, o);
    UnseenPending(SAMPLE_CONFIG, s, o);
  }

  /** A static ask, and a tenth of a second later a blind update, well inside the hold time: the pending jump is gone. */
  lemma BlindUpdateEndsStaticJump()
    ensures var c, first, ask, blind := SAMPLE_CONFIG, Sample(9.9, Some(1), 2.0), MapSample(10.0, Some(1), 3.0), Blind(10.1, Some(1));
            var s := After(c, [first, ask]);
            && s.pending.active && s.pending.source == MapDiff && Unseen(c, s, blind)
            && blind.stamp - ask.stamp <= c.stableHold && !Step(c, s, blind).0.pending.active
  {
    var first, ask := Sample(9.9, Some(1), 2.0), MapSample(10.0, Some(1), 3.0);
    FirstSample(first);
    StaticAskShown(After(SAMPLE_CONFIG, [first]), ask);
    AfterMore(SAMPLE_CONFIG, [first], ask);
    assert [first] + [ask] == [first, ask];
    BlindEnds(After(SAMPLE_CONFIG, [first, ask]), Blind(10.1, Some(1)));
  }

  lemma AbsoluteAskShown(s: State, high: Observation)
    requires Fresh(s, 99.9) && high == Sample(100.0, Some(1), 3.0)
    ensures Shows(Step(SAMPLE_CONFIG, s, high).0, Some(1), 99.9, 100.0, DirectTop, 100.0)
  {
    SampleAsks(s, high);
  }

  lemma StaticAskRolls(s: State, o: Observation)
    requires o == MapSample(50.0, Some(2), 3.0) && Shows(s, Some(1), 99.9, 100.0, DirectTop, 100.0)
    ensures RollsBack(SAMPLE_CONFIG, s, o) && Shows(Step(SAMPLE_CONFIG, s, o).0, Some(2), 99.9, 50.0, MapDiff, 100.0)
  {
    MapSampleAsks(s, o);
  }

  lemma BlindStays(s: State, o: Observation)
    requires o == Blind(50.9, Some(2)) && Shows(s, Some(2), 99.9, 50.0, MapDiff, 100.0)
    ensures Unseen(SAMPLE_CONFIG, s, o) && Step(SAMPLE_CONFIG, s, o).0.pending == s.pending
  {
    BlindIsUnseen(s, o);
    UnseenPending(SAMPLE_CONFIG, s, o);
  }

  /**
   An absolute ask at 100, a static ask at 50 under another authority, and a blind update nine tenths of a second
   later: the pending jump survives a pause longer than the hold time.
   */
  lemma RollbackStretchesHold()
    ensures var c, first, high := SAMPLE_CONFIG, Sample(99.9, Some(1), 2.0), Sample(100.0, Some(1), 3.0);
            var ask, blind := MapSample(50.0, Some(2), 3.0), Blind(50.9, Some(2));
            var s := After(c, [first, high, ask]);
            && RollsBack(c, After(c, [first, high]), ask)
            && s.pending.active && s.pending.source == MapDiff && Unseen(c, s, blind)
            && blind.stamp - ask.stamp > c.stableHold && Step(c, s, blind).0.pending == s.pending
  {
    var c, first, high := SAMPLE_CONFIG, Sample(99.9, Some(1), 2.0), Sample(100.0, Some(1), 3.0);
    var ask, blind := MapSample(50.0, Some(2), 3.0), Blind(50.9, Some(2));
    FirstSample(first);
    AbsoluteAskShown(After(c, [first]), high);
    AfterMore(c, [first], high);
    assert [first] + [high] == [first, high];
    StaticAskRolls(After(c, [first, high]), ask);
    AfterMore(c, [first, high], ask);
    assert [first, high] + [ask] == [first, high, ask];
    BlindStays(After(c, [first, high, ask]), blind);
  }
}
