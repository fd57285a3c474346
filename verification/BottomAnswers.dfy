/**
 What the cargo-bottom estimator answers after a run, told from the updates and their answers: where each
 candidate comes from, what it is compared with, and what becomes of it at the gate.
 */
module BottomAnswers {
  import opened Prelude
  import opened BottomAccumulation
  import opened BottomFusion
  import opened BottomRuns
  import opened BottomGate
  import opened BottomLate

  /**
   An update is processed exactly when it is sound and its track or authority is new, or its stamp lies within the stale
   gap of the last one, the centre it needs is there, and the stamp has not been answered yet.
   */
  lemma ProcessedExactly(c: Config, s: State, o: Observation)
    ensures Admit(c, s, o) == Proceed <==>
              && Sound(c, o)
              && (|| TrackChanged(s, o) || AuthorityChanged(s, o)
                  || (&& s.lastStamp - c.limits.tolerance <= o.stamp <= s.lastStamp + c.staleReset && !CentreLost(s, o)
                      && (o.stamp > s.lastStamp + c.limits.tolerance || s.lastResult.None?)))
  {}

  // ---------------------------------------------------------------- what an update measures

  predicate HasTop(o: Observation, height: Option<real>) { o.top.Some? && height.Some? }

  /**
   The measurement of an update, source by source: map difference, supported top with frozen thickness, pre-lift
   height, visible points, static map; every height hangs from the current top.
   */
  lemma MeasuredBySource(o: Observation)
    ensures var m := Measured(o);
            if HasTop(o, o.mapDiff) then m == Some(Selected(MapDiff, Span(o.top.value - o.mapDiff.value, o.top.value)))
            else if HasTop(o, o.frozen) && o.topSupported then m == Some(Selected(DirectTop, Span(o.top.value - o.frozen.value, o.top.value)))
            else if HasTop(o, o.origin) then m == Some(Selected(OriginHeight, Span(o.top.value - o.origin.value, o.top.value)))
            else if o.measured.Some? && o.measured.value.bottom < o.measured.value.top then m == Some(Selected(Points, o.measured.value))
            else if HasTop(o, o.mapStatic) then m == Some(Selected(MapStatic, Span(o.top.value - o.mapStatic.value, o.top.value)))
            else m.None?
  {}

  /** The update measures the bottom absolutely. */
  predicate Absolute(o: Observation) { Measured(o).Some? && Measured(o).value.source == DirectTop }

  /** x lies the share alpha of the way from `from` to `to`, at both ends. */
  ghost predicate Moved(alpha: real, from: Span, to: Span, x: Span) {
    x.bottom - from.bottom == alpha * (to.bottom - from.bottom) && x.top - from.top == alpha * (to.top - from.top)
  }

  lemma Share(alpha: real, x: real, y: real)
    ensures alpha * x + (1.0 - alpha) * y - y == alpha * (x - y)
  {}

  lemma MixMoved(alpha: real, x: Span, y: Span)
    ensures Moved(alpha, y, x, Mix(alpha, x, y))
  {
    Share(alpha, x.bottom, y.bottom);
    Share(alpha, x.top, y.top);
  }

  /** Two spans are within a jump of each other when bottoms, tops and heights all are. */
  lemma JumpMeaning(x: Span, y: Span, limit: real)
    ensures Jump(x, y) <= limit <==>
              && -limit <= x.bottom - y.bottom <= limit && -limit <= x.top - y.top <= limit
              && -limit <= (x.top - x.bottom) - (y.top - y.bottom) <= limit
  {}

  // ---------------------------------------------------------------- what is remembered of a run

  /** The last output, the last trusted one, and the last averaged measurement. */
  datatype Memory = Spoken | Trusted | Averaged

  function CandidateAt(c: Config, run: seq<Observation>, k: nat): Option<Selected>
    requires k < |run|
  {
    Prepared(c, At(c, run, k), run[k]).1
  }

  function AnswerAt(c: Config, run: seq<Observation>, k: nat): Result
    requires k < |run|
  {
    Step(c, At(c, run, k), run[k]).1
  }

  /** The update makes a new memory of this kind. */
  predicate Makes(c: Config, s: State, o: Observation, m: Memory) {
    && Admit(c, s, o) == Proceed
    && var r := Step(c, s, o).1;
       match m
       case Spoken => r.output.Some?
       case Trusted => r.valid && r.output.Some? && !r.output.value.held && r.output.value.source != RecentStable
       case Averaged => Measured(o).Some? && !Absolute(o)
  }

  /** The update forgets it: every reset, and for the average an absolute measurement. */
  predicate Forgets(c: Config, s: State, o: Observation, m: Memory) {
    || Admit(c, s, o) == Refused || Admit(c, s, o) == Lost
    || (Admit(c, s, o) == Proceed && (TrackChanged(s, o) || (m == Averaged && Absolute(o))))
  }

  /** The position of the update that made the memory that stands after the run, or -1. */
  function LastOf(c: Config, run: seq<Observation>, m: Memory): (k: int)
    ensures -1 <= k < |run|
    ensures k >= 0 ==> Makes(c, At(c, run, k), run[k], m)
  {
    if |run| == 0 then -1
    else
      var front, o := run[..|run| - 1], run[|run| - 1];
      if Makes(c, After(c, front), o, m) then |front|
      else if Forgets(c, After(c, front), o, m) then -1
      else
        var k := LastOf(c, front, m);
        assert k >= 0 ==> front[..k] == run[..k];
        k
  }

  /** Whether what update k published hangs on the track centre. */
  predicate Hanging(o: Observation) { o.centre.Some? && !Absolute(o) }

  function Offsets(o: Observation, span: Span): Span { Shifted(span, -CentreOf(o)) }

  function FinalOf(c: Config, run: seq<Observation>): Option<Level> {
    var k := LastOf(c, run, Spoken);
    if k < 0 then None
    else
      var out := AnswerAt(c, run, k).output.value;
      Some(Level(out.source, Hanging(run[k]), if Hanging(run[k]) then Offsets(run[k], out.span) else out.span))
  }

  function StableOf(c: Config, run: seq<Observation>): Option<Stable> {
    var k := LastOf(c, run, Trusted);
    if k < 0 then None
    else
      var span := AnswerAt(c, run, k).output.value.span;
      Some(Stable(run[k].trackId, run[k].stamp, span, if Hanging(run[k]) then Some(Offsets(run[k], span)) else None))
  }

  function AverageOf(c: Config, run: seq<Observation>): Option<Level> {
    var k := LastOf(c, run, Averaged);
    if k < 0 then None
    else Some(Level(Measured(run[k]).value.source, run[k].centre.Some?, Offsets(run[k], CandidateSpan(c, run, k))))
  }

  function CandidateSpan(c: Config, run: seq<Observation>, k: nat): Span
    requires k < |run|
  {
    if CandidateAt(c, run, k).Some? then CandidateAt(c, run, k).value.span else Span(0.0, 0.0)
  }

  ghost predicate Remembers(c: Config, s: State, run: seq<Observation>) {
    s.final == FinalOf(c, run) && s.stable == StableOf(c, run) && s.ema == AverageOf(c, run)
  }

  // ---------------------------------------------------------------- the state is what is remembered

  lemma ShiftBack(span: Span, d: real)
    ensures Shifted(Shifted(span, d), -d) == span && Shifted(Shifted(span, -d), d) == span
  {}

  /** What a processed update leaves. */
  lemma ProcessLeaves(c: Config, s: State, o: Observation)
    requires Admit(c, s, o) == Proceed
    ensures var (t, r) := Step(c, s, o); var e := Entered(s, o);
            && t.final == (if Makes(c, s, o, Spoken) then
                             Some(Level(r.output.value.source, Hanging(o), if Hanging(o) then Offsets(o, r.output.value.span) else r.output.value.span))
                           else e.final)
            && t.stable == (if Makes(c, s, o, Trusted) then
                              Some(Stable(o.trackId, o.stamp, r.output.value.span, if Hanging(o) then Some(Offsets(o, r.output.value.span)) else None))
                            else e.stable)
  {
    var (t, sel) := Prepared(c, s, o);
    PreparedKeeps(c, s, o);
    if sel.Some? {
      GateKeeps(c, t, o, sel.value);
    }
  }

  lemma AverageLeaves(c: Config, s: State, o: Observation)
    requires Admit(c, s, o) == Proceed
    ensures Step(c, s, o).0.ema ==
              if Makes(c, s, o, Averaged) then
                Some(Level(Measured(o).value.source, o.centre.Some?, Offsets(o, Prepared(c, s, o).1.value.span)))
              else if Absolute(o) then None else Entered(s, o).ema
    ensures Makes(c, s, o, Averaged) ==> Prepared(c, s, o).1.Some?
  {
    var (t, sel) := Prepared(c, s, o);
    if sel.Some? {
      GateKeeps(c, t, o, sel.value);
      if Makes(c, s, o, Averaged) {
        ShiftBack(t.ema.value.span, CentreOf(o));
      }
    }
  }

  lemma {:induction false} LastNext(c: Config, run: seq<Observation>, o: Observation, m: Memory)
    ensures LastOf(c, run + [o], m) ==
              if Makes(c, After(c, run), o, m) then |run| else if Forgets(c, After(c, run), o, m) then -1 else LastOf(c, run, m)
    ensures At(c, run + [o], |run|) == After(c, run) && (run + [o])[|run|] == o
    ensures forall k: nat :: k < |run| ==> At(c, run + [o], k) == At(c, run, k) && (run + [o])[k] == run[k]
  {
    assert (run + [o])[..|run|] == run;
    AtEnd(c, run, o);
    forall k: nat | k < |run| ensures At(c, run + [o], k) == At(c, run, k) {
      AtLater(c, run, o, k);
    }
  }

  lemma {:induction false} FinalNext(c: Config, run: seq<Observation>, o: Observation)
    requires Remembers(c, After(c, run), run)
    ensures Step(c, After(c, run), o).0.final == FinalOf(c, run + [o])
  {
    LastNext(c, run, o, Spoken);
    if Admit(c, After(c, run), o) == Proceed {
      ProcessLeaves(c, After(c, run), o);
    }
  }

  lemma {:induction false} StableNext(c: Config, run: seq<Observation>, o: Observation)
    requires Remembers(c, After(c, run), run)
    ensures Step(c, After(c, run), o).0.stable == StableOf(c, run + [o])
  {
    LastNext(c, run, o, Trusted);
    if Admit(c, After(c, run), o) == Proceed {
      ProcessLeaves(c, After(c, run), o);
    }
  }

  lemma {:induction false} AverageNext(c: Config, run: seq<Observation>, o: Observation)
    requires Remembers(c, After(c, run), run)
    ensures Step(c, After(c, run), o).0.ema == AverageOf(c, run + [o])
  {
    LastNext(c, run, o, Averaged);
    if Admit(c, After(c, run), o) == Proceed {
      AverageLeaves(c, After(c, run), o);
    }
  }

  lemma {:induction false} RunRemembers(c: Config, run: seq<Observation>)
    ensures Remembers(c, After(c, run), run)
  {
    if |run| > 0 {
      var front, o := run[..|run| - 1], run[|run| - 1];
      RunRemembers(c, front);
      FinalNext(c, front, o);
      StableNext(c, front, o);
      AverageNext(c, front, o);
      assert front + [o] == run;
    }
  }

  // ---------------------------------------------------------------- the candidate

  predicate Fits(c: Config, st: Stable, o: Observation) {
    st.trackId == o.trackId && -c.limits.tolerance <= o.stamp - st.stamp <= c.stableHold
  }

  /** The candidate from the state. */
  lemma MissingFrom(c: Config, s: State, o: Observation)
    requires Admit(c, s, o) == Proceed && Measured(o).None?
    ensures Prepared(c, s, o).1 ==
              if s.stable.None? || TrackChanged(s, o) || !Fits(c, s.stable.value, o) then None
              else if s.stable.value.offsets.Some? && o.centre.Some? then
                Some(Selected(RecentStable, Shifted(s.stable.value.offsets.value, o.centre.value)))
              else Some(Selected(RecentStable, s.stable.value.span))
  {}

  /** How far the track centre has moved since update k. */
  function Drift(o: Observation, k: Observation): real { CentreOf(o) - CentreOf(k) }

  /** A span published at k, where it is now: it moves with the centre if it hangs on it. */
  function Carried(span: Span, k: Observation, o: Observation): Span {
    if Hanging(k) && o.centre.Some? then Shifted(span, Drift(o, k)) else span
  }

  /** The span that update k published. */
  function SpanAt(c: Config, run: seq<Observation>, k: nat): Span
    requires k < |run|
  {
    var r := AnswerAt(c, run, k);
    if r.output.Some? then r.output.value.span else Span(0.0, 0.0)
  }

  lemma {:induction false} StableParts(c: Config, run: seq<Observation>)
    ensures var k, st := LastOf(c, run, Trusted), After(c, run).stable;
            && (st.Some? <==> k >= 0)
            && (k >= 0 ==>
                  && st.value.trackId == run[k].trackId && st.value.stamp == run[k].stamp && st.value.span == SpanAt(c, run, k)
                  && st.value.offsets == if Hanging(run[k]) then Some(Offsets(run[k], SpanAt(c, run, k))) else None)
  {
    RunRemembers(c, run);
  }

  /** The trusted output that stands in for a missing measurement: of the same track, and young enough. */
  predicate Usable(c: Config, run: seq<Observation>, o: Observation) {
    var k := LastOf(c, run, Trusted);
    && k >= 0 && !TrackChanged(After(c, run), o) && run[k].trackId == o.trackId
    && -c.limits.tolerance <= o.stamp - run[k].stamp <= c.stableHold
  }

  lemma CarriedOffsets(span: Span, k: Observation, o: Observation)
    requires Hanging(k) && o.centre.Some?
    ensures Shifted(Offsets(k, span), o.centre.value) == Carried(span, k, o)
  {}

  /** Without a measurement: the trusted output, moved with the centre where it hangs on it, else nothing. */
  lemma {:induction false} MissingIsRemembered(c: Config, run: seq<Observation>, o: Observation)
    requires Admit(c, After(c, run), o) == Proceed && Measured(o).None?
    ensures Prepared(c, After(c, run), o).1 ==
              if !Usable(c, run, o) then None
              else var k := LastOf(c, run, Trusted); Some(Selected(RecentStable, Carried(SpanAt(c, run, k), run[k], o)))
  {
    StableParts(c, run);
    MissingFrom(c, After(c, run), o);
    var k := LastOf(c, run, Trusted);
    if k >= 0 && Hanging(run[k]) && o.centre.Some? {
      CarriedOffsets(SpanAt(c, run, k), run[k], o);
    }
  }

  lemma ShiftMoved(alpha: real, from: Span, to: Span, x: Span, d: real)
    requires Moved(alpha, from, to, x)
    ensures Moved(alpha, Shifted(from, d), Shifted(to, d), Shifted(x, d))
  {
    assert (to.bottom + d) - (from.bottom + d) == to.bottom - from.bottom;
    assert (to.top + d) - (from.top + d) == to.top - from.top;
  }

  /** The average continues with a measurement of the source, with or without a centre as the average has one. */
  predicate Continues(e: Option<Level>, source: Source, o: Observation) {
    e.Some? && e.value.source == source && e.value.usesCentre == o.centre.Some?
  }

  lemma SmoothMeaning(c: Config, t: State, o: Observation, sel: Selected)
    requires sel.source != RecentStable
    ensures var x := Smooth(c, t, o, sel).1;
            && x.source == sel.source
            && (sel.source == DirectTop || !Continues(t.ema, sel.source, o) ==> x.span == sel.span)
            && (sel.source != DirectTop && Continues(t.ema, sel.source, o) ==>
                  Moved(c.emaAlpha, Shifted(t.ema.value.span, CentreOf(o)), sel.span, x.span))
  {
    ShiftBack(sel.span, CentreOf(o));
    if sel.source != DirectTop && Continues(t.ema, sel.source, o) {
      var raw := Offsets(o, sel.span);
      MixMoved(c.emaAlpha, raw, t.ema.value.span);
      ShiftMoved(c.emaAlpha, t.ema.value.span, raw, Mix(c.emaAlpha, raw, t.ema.value.span), CentreOf(o));
    }
  }

  /** The candidate from the state. */
  lemma MeasurementFrom(c: Config, s: State, o: Observation)
    requires Admit(c, s, o) == Proceed && Measured(o).Some?
    ensures var sel, m := Prepared(c, s, o).1, Measured(o).value;
            var continues := !TrackChanged(s, o) && Continues(s.ema, m.source, o);
            && sel.Some? && sel.value.source == m.source
            && (Absolute(o) || !continues ==> sel.value.span == m.span)
            && (!Absolute(o) && continues ==> Moved(c.emaAlpha, Shifted(s.ema.value.span, CentreOf(o)), m.span, sel.value.span))
  {
    SmoothMeaning(c, Accumulated(c, Entered(s, o), o), o, Measured(o).value);
  }

  lemma {:induction false} AverageParts(c: Config, run: seq<Observation>)
    ensures var k, e := LastOf(c, run, Averaged), After(c, run).ema;
            && (e.Some? <==> k >= 0)
            && (k >= 0 ==> Measured(run[k]).Some? && e.value.source == Measured(run[k]).value.source
                           && e.value.usesCentre == run[k].centre.Some? && e.value.span == Offsets(run[k], CandidateSpan(c, run, k)))
  {
    RunRemembers(c, run);
  }

  /** The average that a measurement continues: of the same source, with or without a centre as now. */
  predicate ContinuesAverage(c: Config, run: seq<Observation>, o: Observation) {
    var k := LastOf(c, run, Averaged);
    && k >= 0 && !TrackChanged(After(c, run), o) && Measured(o).Some? && Measured(run[k]).Some?
    && Measured(run[k]).value.source == Measured(o).value.source && (run[k].centre.Some? <==> o.centre.Some?)
  }

  lemma ShiftTwice(span: Span, a: real, b: real)
    ensures Shifted(Shifted(span, -a), b) == Shifted(span, b - a)
  {}

  /**
   With a measurement: an absolute one and one that starts an average are taken as measured; one that continues an
   average moves it, carried along with the centre, emaAlpha of the way to the measurement.
   */
  lemma {:induction false} MeasurementIsAveraged(c: Config, run: seq<Observation>, o: Observation)
    requires Admit(c, After(c, run), o) == Proceed && Measured(o).Some?
    ensures var sel, k := Prepared(c, After(c, run), o).1, LastOf(c, run, Averaged);
            && sel.Some? && sel.value.source == Measured(o).value.source
            && (Absolute(o) || !ContinuesAverage(c, run, o) ==> sel.value.span == Measured(o).value.span)
            && (!Absolute(o) && ContinuesAverage(c, run, o) ==>
                  Moved(c.emaAlpha, Shifted(CandidateSpan(c, run, k), Drift(o, run[k])), Measured(o).value.span, sel.value.span))
  {
    AverageParts(c, run);
    var e := After(c, run).ema;
    var k := LastOf(c, run, Averaged);
    assert ContinuesAverage(c, run, o) <==> !TrackChanged(After(c, run), o) && Continues(e, Measured(o).value.source, o);
    if k >= 0 {
      ShiftTwice(CandidateSpan(c, run, k), CentreOf(run[k]), CentreOf(o));
      assert Shifted(e.value.span, CentreOf(o)) == Shifted(CandidateSpan(c, run, k), Drift(o, run[k]));
    }
    MeasurementFrom(c, After(c, run), o);
  }

  // ---------------------------------------------------------------- the previous output

  lemma PreviousFrom(c: Config, s: State, o: Observation)
    requires Admit(c, s, o) == Proceed
    ensures var t := Prepared(c, s, o).0;
            && (Comparable(t, o) <==> s.final.Some? && !TrackChanged(s, o) && (s.final.value.usesCentre ==> o.centre.Some?))
            && (Comparable(t, o) ==>
                  t.final == s.final
                  && Previous(t, o) == if s.final.value.usesCentre then Shifted(s.final.value.span, CentreOf(o)) else s.final.value.span)
  {
    PreparedKeeps(c, s, o);
  }

  lemma {:induction false} FinalParts(c: Config, run: seq<Observation>)
    ensures var k, last := LastOf(c, run, Spoken), After(c, run).final;
            && (last.Some? <==> k >= 0)
            && (k >= 0 ==>
                  && AnswerAt(c, run, k).output.Some? && last.value.source == AnswerAt(c, run, k).output.value.source
                  && last.value.usesCentre == Hanging(run[k])
                  && last.value.span == if Hanging(run[k]) then Offsets(run[k], SpanAt(c, run, k)) else SpanAt(c, run, k))
  {
    RunRemembers(c, run);
  }

  /** The last output of the track can be compared unless it hangs on a centre that is missing now; it moves with the centre. */
  lemma {:induction false} PreviousIsLastOutput(c: Config, run: seq<Observation>, o: Observation)
    requires Admit(c, After(c, run), o) == Proceed
    ensures var t, k := Prepared(c, After(c, run), o).0, LastOf(c, run, Spoken);
            && (Comparable(t, o) <==> k >= 0 && !TrackChanged(After(c, run), o) && (Hanging(run[k]) ==> o.centre.Some?))
            && (Comparable(t, o) ==> AnswerAt(c, run, k).output.Some? && t.final.value.source == AnswerAt(c, run, k).output.value.source
                                     && Previous(t, o) == Carried(SpanAt(c, run, k), run[k], o))
  {
    FinalParts(c, run);
    PreviousFrom(c, After(c, run), o);
    var k := LastOf(c, run, Spoken);
    if k >= 0 {
      ShiftTwice(SpanAt(c, run, k), CentreOf(run[k]), CentreOf(o));
    }
  }

  // ---------------------------------------------------------------- the gate

  /** The candidate is a large jump that is not accepted at once. */
  predicate Large(c: Config, s: State, o: Observation) {
    && Admit(c, s, o) == Proceed
    && var (t, sel) := Prepared(c, s, o);
       sel.Some? && Comparable(t, o) && Jump(sel.value.span, Previous(t, o)) > c.softJump && !Drops(sel.value, Previous(t, o))
  }

  /** The update says nothing about a pending jump. */
  predicate Leaves(c: Config, s: State, o: Observation) {
    || Admit(c, s, o) == Ignored || Admit(c, s, o) == Repeated
    || (Admit(c, s, o) == Proceed && !TrackChanged(s, o)
        && var (t, sel) := Prepared(c, s, o);
           if sel.Some? && !Comparable(t, o) then true
           else
             && !(s.pending.active && o.stamp - s.pending.lastPositive > c.stableHold)
             && (sel.Some? ==> sel.value.source == RecentStable && Jump(sel.value.span, Previous(t, o)) <= c.directJump))
  }

  function AskAt(c: Config, run: seq<Observation>, k: nat): Selected
    requires k < |run|
  {
    var sel := CandidateAt(c, run, k);
    if sel.Some? then sel.value else Selected(Points, Span(0.0, 0.0))
  }

  /** An ask joins those before it when it is of their source and, unless it is absolute, for the span of the first. */
  predicate Joins(c: Config, first: Selected, sel: Selected) {
    && first.source == sel.source
    && (sel.source == DirectTop
        || (-c.confirmTolerance <= first.span.bottom - sel.span.bottom <= c.confirmTolerance
            && -c.confirmTolerance <= first.span.top - sel.span.top <= c.confirmTolerance))
  }

  /** The asks that a large jump completes so far: those it joins, and itself. */
  function Joined(c: Config, run: seq<Observation>, o: Observation, ks: seq<nat>): seq<nat>
    requires Large(c, After(c, run), o) && forall i :: 0 <= i < |ks| ==> ks[i] < |run|
  {
    if |ks| > 0 && !TrackChanged(After(c, run), o) && Joins(c, AskAt(c, run, ks[0]), Prepared(c, After(c, run), o).1.value) then ks + [|run|]
    else [|run|]
  }

  /** The asks for a jump that is still waiting. */
  function Asked(c: Config, run: seq<Observation>): (ks: seq<nat>)
    ensures forall i :: 0 <= i < |ks| ==> ks[i] < |run|
  {
    if |run| == 0 then []
    else
      var front, o := run[..|run| - 1], run[|run| - 1];
      var ks := Asked(c, front);
      if Leaves(c, After(c, front), o) then ks
      else if Large(c, After(c, front), o) && |Joined(c, front, o, ks)| < c.confirmFrames then Joined(c, front, o, ks)
      else []
  }

  /** The pending jump of the state is the list of waiting asks. */
  ghost predicate Pends(c: Config, s: State, run: seq<Observation>, ks: seq<nat>)
    requires forall i :: 0 <= i < |ks| ==> ks[i] < |run|
  {
    && (s.pending.active <==> |ks| > 0)
    && (|ks| > 0 ==> s.pending.count == |ks| && s.pending.source == AskAt(c, run, ks[0]).source && s.pending.span == AskAt(c, run, ks[0]).span)
  }

  lemma LargeAnswer(c: Config, s: State, o: Observation)
    requires Large(c, s, o)
    ensures var (t, sel) := Prepared(c, s, o); var (u, r) := Step(c, s, o);
            var p := Propose(c, t.pending, o.stamp, sel.value);
            && r.output.Some?
            && (p.count < c.confirmFrames ==> u.pending == p && r.output.value == Output(t.final.value.source, Previous(t, o), true))
            && (p.count >= c.confirmFrames ==>
                  !u.pending.active
                  && r.output.value == Output(sel.value.source, if sel.value.source == DirectTop then sel.value.span else p.span, false))
  {}

  /** What the proposal of a candidate makes of a pending jump that stands for n asks, the first of them for `first`. */
  lemma ProposeFrom(c: Config, p: Pending, stamp: real, sel: Selected, n: nat, first: Selected)
    requires p.active <==> n > 0
    requires n > 0 ==> p.count == n && p.source == first.source && p.span == first.span
    ensures var q := Propose(c, p, stamp, sel);
            q.active && if n > 0 && Joins(c, first, sel) then q.count == n + 1 && q.source == first.source && q.span == first.span
                        else q.count == 1 && q.source == sel.source && q.span == sel.span
  {}

  lemma PendingBefore(c: Config, s: State, o: Observation)
    requires Admit(c, s, o) == Proceed
    ensures var t := Prepared(c, s, o).0; if TrackChanged(s, o) then !t.pending.active else t.pending == s.pending
  {
    PreparedKeeps(c, s, o);
  }

  /** The span that is adopted when the asks confirm: that of the first of them, or of the candidate if it is absolute. */
  function Adopted(c: Config, run: seq<Observation>, o: Observation): Span
    requires Large(c, After(c, run), o)
  {
    var sel, ks := Prepared(c, After(c, run), o).1.value, Asked(c, run);
    if sel.source == DirectTop || |Joined(c, run, o, ks)| == 1 then sel.span else AskAt(c, run, ks[0]).span
  }

  lemma {:induction false} ProposeCounts(c: Config, run: seq<Observation>, o: Observation)
    requires Large(c, After(c, run), o) && Pends(c, After(c, run), run, Asked(c, run))
    ensures var (t, sel) := Prepared(c, After(c, run), o);
            var p, joined := Propose(c, t.pending, o.stamp, sel.value), Joined(c, run, o, Asked(c, run));
            && p.active && p.count == |joined| && p.source == sel.value.source
            && p.span == (if |joined| > 1 then AskAt(c, run, Asked(c, run)[0]).span else sel.value.span)
            && (|joined| > 1 ==> p.source == AskAt(c, run, Asked(c, run)[0]).source && joined[0] == Asked(c, run)[0])
  {
    var ks, s := Asked(c, run), After(c, run);
    var (t, sel) := Prepared(c, s, o);
    PendingBefore(c, s, o);
    if TrackChanged(s, o) || |ks| == 0 {
      ProposeFrom(c, t.pending, o.stamp, sel.value, 0, sel.value);
    } else {
      ProposeFrom(c, t.pending, o.stamp, sel.value, |ks|, AskAt(c, run, ks[0]));
    }
  }

  // ---------------------------------------------------------------- the pending jump is the waiting asks

  lemma LeavesPending(c: Config, s: State, o: Observation)
    requires Leaves(c, s, o)
    ensures Step(c, s, o).0.pending == s.pending
  {
    if Admit(c, s, o) == Proceed {
      PreparedKeeps(c, s, o);
    }
  }

  lemma OtherwiseNoPending(c: Config, s: State, o: Observation)
    requires !Leaves(c, s, o) && !Large(c, s, o)
    ensures !Step(c, s, o).0.pending.active
  {
    if Admit(c, s, o) == Proceed {
      PendingBefore(c, s, o);
    }
  }

  lemma {:induction false} AskedNext(c: Config, run: seq<Observation>, o: Observation)
    ensures Asked(c, run + [o]) ==
              if Leaves(c, After(c, run), o) then Asked(c, run)
              else if Large(c, After(c, run), o) && |Joined(c, run, o, Asked(c, run))| < c.confirmFrames then Joined(c, run, o, Asked(c, run))
              else []
    ensures Large(c, After(c, run), o) ==> AskAt(c, run + [o], |run|) == Prepared(c, After(c, run), o).1.value
    ensures forall k: nat :: k < |run| ==> AskAt(c, run + [o], k) == AskAt(c, run, k)
  {
    assert (run + [o])[..|run|] == run;
    AtEnd(c, run, o);
    forall k: nat | k < |run| ensures AskAt(c, run + [o], k) == AskAt(c, run, k) {
      AtLater(c, run, o, k);
    }
  }

  ghost predicate PendsAfter(c: Config, run: seq<Observation>) { Pends(c, After(c, run), run, Asked(c, run)) }

  lemma {:induction false} StepPends(c: Config, run: seq<Observation>, o: Observation, s: State)
    requires s == After(c, run) && PendsAfter(c, run)
    ensures Pends(c, Step(c, s, o).0, run + [o], Asked(c, run + [o]))
  {
    AskedNext(c, run, o);
    if Leaves(c, s, o) {
      LeavesPending(c, s, o);
    } else if Large(c, s, o) {
      LargeAnswer(c, s, o);
      ProposeCounts(c, run, o);
    } else {
      OtherwiseNoPending(c, s, o);
    }
  }

  lemma PendsNext(c: Config, run: seq<Observation>, o: Observation)
    requires PendsAfter(c, run)
    ensures PendsAfter(c, run + [o])
  {
    assert (run + [o])[..|run|] == run;
    StepPends(c, run, o, After(c, run));
  }

  /** Induction over a run. */
  lemma {:induction false} Grow(p: seq<Observation> -> bool, run: seq<Observation>)
    requires p([]) && forall front, longer :: |longer| > 0 && front == longer[..|longer| - 1] && p(front) ==> p(longer)
    ensures p(run)
  {
    if |run| == 0 {
      assert run == [];
    } else {
      Grow(p, run[..|run| - 1]);
    }
  }

  lemma RunPends(c: Config, run: seq<Observation>)
    ensures PendsAfter(c, run)
  {
    var p := (r: seq<Observation>) => PendsAfter(c, r);
    forall front, longer | |longer| > 0 && front == longer[..|longer| - 1] && p(front) ensures p(longer) {
      PendsNext(c, front, longer[|front|]);
      assert front + [longer[|front|]] == longer;
    }
    Grow(p, run);
  }

  // ---------------------------------------------------------------- the answers

  function Answer(c: Config, run: seq<Observation>, o: Observation): Result { Step(c, After(c, run), o).1 }

  /**
   On every run a large jump that is not a drop is held at the previous output while it and the asks it joins are fewer
   than confirmFrames, and published when they are that many: the first span asked for, or the candidate if it is absolute.
   */
  lemma {:induction false} LargeIsAnswered(c: Config, run: seq<Observation>, o: Observation)
    requires Large(c, After(c, run), o)
    ensures var (t, sel) := Prepared(c, After(c, run), o);
            Answer(c, run, o).output ==
              if |Joined(c, run, o, Asked(c, run))| < c.confirmFrames then Some(Output(t.final.value.source, Previous(t, o), true))
              else Some(Output(sel.value.source, Adopted(c, run, o), false))
  {
    RunPends(c, run);
    LargeAnswer(c, After(c, run), o);
    ProposeCounts(c, run, o);
  }

  /**
   On every run any other candidate is published at once: as it is without a comparable output, within the direct limit,
   or when it is an absolute drop; between the limits softAlpha of the way from the previous output to it.
   */
  lemma {:induction false} SmallIsAnswered(c: Config, run: seq<Observation>, o: Observation)
    requires Admit(c, After(c, run), o) == Proceed && Prepared(c, After(c, run), o).1.Some? && !Large(c, After(c, run), o)
    ensures var (t, sel) := Prepared(c, After(c, run), o); var r := Answer(c, run, o);
            && r.output.Some? && r.output.value.source == sel.value.source && !r.output.value.held
            && if Comparable(t, o) && c.directJump < Jump(sel.value.span, Previous(t, o)) <= c.softJump
               then Moved(c.softAlpha, Previous(t, o), sel.value.span, r.output.value.span)
               else r.output.value.span == sel.value.span
  {
    var (t, sel) := Prepared(c, After(c, run), o);
    if Comparable(t, o) {
      MixMoved(c.softAlpha, sel.value.span, Previous(t, o));
    }
  }

  /** A processed update without a candidate publishes nothing; an output is valid when it has height and a box. */
  lemma {:induction false} ValidExactly(c: Config, run: seq<Observation>, o: Observation)
    requires Admit(c, After(c, run), o) == Proceed
    ensures var r := Answer(c, run, o);
            && (r.output.Some? <==> Prepared(c, After(c, run), o).1.Some?)
            && (r.valid <==> r.output.Some? && r.output.value.span.bottom < r.output.value.span.top && o.boxed)
  {}
}
