/** Late and repeated updates of the cargo-bottom estimator: what they forget and what they answer. */
module BottomLate {
  import opened Prelude
  import opened BottomAccumulation
  import opened BottomFusion
  import opened BottomRuns

  predicate Sound(c: Config, o: Observation) {
    ValidConfig(c) && o.usable && o.stamp >= 0.0 && o.coherent && HeightsOk(c, o)
  }

  /** The stamp rolls back or has been silent too long, or the centre that the last output hangs on is gone. */
  predicate Late(c: Config, s: State, o: Observation) {
    o.stamp + c.limits.tolerance < s.lastStamp || o.stamp - s.lastStamp > c.staleReset || CentreLost(s, o)
  }

  /** The update is processed with everything remembered about the track: average, stable span, last output, pending jump. */
  ghost predicate CarriesMemory(c: Config, s: State, o: Observation) {
    && Admit(c, s, o) == Proceed
    && var t := Prepared(c, s, o).0;
       t.stable == s.stable && t.final == s.final && t.pending == s.pending && Entered(s, o).ema == s.ema
  }

  /**
   A late update of a track with a published output resets and reports nothing, unless the track or the
   pose authority changed; the memory of the track reaches the gate if and only if the authority changed
   on the same track.
   */
  lemma LateForgets(c: Config, s: State, o: Observation)
    requires Sound(c, o) && Late(c, s, o) && s.final.Some?
    ensures CarriesMemory(c, s, o) <==> AuthorityChanged(s, o) && !TrackChanged(s, o)
    ensures !TrackChanged(s, o) && !AuthorityChanged(s, o) <==> Admit(c, s, o) == Lost
    ensures Admit(c, s, o) == Lost ==>
              Step(c, s, o) == (INITIAL.(track := s.track, lastStamp := o.stamp, lastResult := Some(NOTHING)), NOTHING)
  {
    PreparedKeeps(c, s, o);
  }

  // ---------------------------------------------------------------- repeated stamps

  /** The stamp is one that has been answered, up to the tolerance. */
  predicate Answered(c: Config, s: State, stamp: real) {
    && s.lastResult.Some? && stamp >= 0.0
    && s.lastStamp - c.limits.tolerance <= stamp <= s.lastStamp + c.limits.tolerance && stamp - s.lastStamp <= c.staleReset
  }

  /** On the same track under the same authority an answered stamp is answered from memory, and nothing changes. */
  lemma RepeatedAnswer(c: Config, s: State, o: Observation)
    requires Sound(c, o) && Answered(c, s, o.stamp) && !CentreLost(s, o)
    requires !TrackChanged(s, o) && !AuthorityChanged(s, o)
    ensures Step(c, s, o) == (s, s.lastResult.value)
  {}

  /** An absolute measurement of the smallest thickness, with nothing else. */
  function Probe(c: Config, stamp: real, track: nat, authority: Authority, top: real): Observation {
    Observation(true, true, stamp, track, authority, [], Some(0.0), Some(top), true, Some(c.minHeight), true, None, None, None, None, None, true)
  }

  function ProbeSpan(c: Config, top: real): Span { Span(top - c.minHeight, top) }

  /** It is published as measured on a new track, and when it drops far enough. */
  lemma ProbeOutput(c: Config, s: State, o: Observation, top: real)
    requires ValidConfig(c) && o == Probe(c, o.stamp, o.trackId, o.authority, top) && Admit(c, s, o) == Proceed
    requires TrackChanged(s, o) || (s.final.Some? ==> top - c.minHeight < s.final.value.span.bottom - c.softJump)
    ensures Step(c, s, o).1.output == Some(Output(DirectTop, ProbeSpan(c, top), false))
  {
    PreparedKeeps(c, s, o);
    MeasuredIsBest(o, DirectTop);
    assert Select(c, Accumulated(c, Entered(s, o), o), o) == Some(Selected(DirectTop, ProbeSpan(c, top)));
  }

  ghost predicate AnsweredAlike(c: Config, s: State, stamp: real, track: nat, authority: Authority)
    requires s.lastResult.Some?
  {
    forall o: Observation :: Sound(c, o) && o.stamp == stamp && o.trackId == track && o.authority == authority && !CentreLost(s, o) ==>
      Step(c, s, o).1 == s.lastResult.value
  }

  predicate SameOwner(s: State, track: nat, authority: Authority) {
    s.track.Some? && s.track.value.0 == track && SameAuthority(s.track.value.1, authority)
  }

  /** A top whose probe drops far enough and is not the answer in memory. */
  function OtherTop(c: Config, s: State): real
    requires s.lastResult.Some?
  {
    var low := (if s.final.Some? then s.final.value.span.bottom else 0.0) - c.softJump - 1.0;
    if s.lastResult.value.output == Some(Output(DirectTop, ProbeSpan(c, low), false)) then low - 1.0 else low
  }

  lemma OtherTopDiffers(c: Config, s: State, o: Observation)
    requires ValidConfig(c) && s.lastResult.Some? && Answered(c, s, o.stamp) && !SameOwner(s, o.trackId, o.authority)
    requires o == Probe(c, o.stamp, o.trackId, o.authority, OtherTop(c, s))
    ensures Sound(c, o) && !CentreLost(s, o) && Step(c, s, o).1 != s.lastResult.value
  {
    ProbeOutput(c, s, o, OtherTop(c, s));
  }

  /**
   Exactly when an answered stamp is bound to be answered from memory, whatever the update measures: when neither
   the track nor the authority differs, an invalid authority counting as different.
   */
  lemma AnswerIsFixed(c: Config, s: State, stamp: real, track: nat, authority: Authority)
    requires ValidConfig(c) && Answered(c, s, stamp)
    ensures AnsweredAlike(c, s, stamp, track, authority) <==> SameOwner(s, track, authority)
  {
    if SameOwner(s, track, authority) {
      forall o: Observation | Sound(c, o) && o.stamp == stamp && o.trackId == track && o.authority == authority && !CentreLost(s, o)
        ensures Step(c, s, o).1 == s.lastResult.value
      {
        RepeatedAnswer(c, s, o);
      }
    } else {
      OtherTopDiffers(c, s, Probe(c, stamp, track, authority, OtherTop(c, s)));
    }
  }
}
