/**
 Whole runs of the cargo-bottom estimator: the store stays bounded and inside its window, and published
 spans keep top above bottom.
 */
module BottomRuns {
  import opened Prelude
  import opened BottomAccumulation
  import opened BottomFusion

  function After(c: Config, run: seq<Observation>): State {
    if |run| == 0 then INITIAL else Step(c, After(c, run[..|run| - 1]), run[|run| - 1]).0
  }

  function At(c: Config, run: seq<Observation>, k: nat): State
    requires k <= |run|
  {
    After(c, run[..k])
  }

  lemma AtLater(c: Config, run: seq<Observation>, o: Observation, k: nat)
    requires k <= |run|
    ensures At(c, run + [o], k) == At(c, run, k)
  {
    assert (run + [o])[..k] == run[..k];
  }

  lemma {:induction false} AtEnd(c: Config, run: seq<Observation>, o: Observation)
    ensures At(c, run + [o], |run|) == After(c, run) && (run + [o])[|run|] == o
  {
    assert (run + [o])[..|run|] == run;
  }

  // ---------------------------------------------------------------- the store

  ghost predicate StoreOk(c: Config, s: State) {
    && Bounded(s.store, c.limits)
    && NotBefore(s.store.frames, s.lastStamp - c.limits.window)
    && (|s.store.frames| > 0 ==> s.store.newest <= s.lastStamp && s.lastResult.Some?)
  }

  lemma AccumulatedOk(c: Config, s: State, o: Observation)
    requires ValidConfig(c) && Bounded(s.store, c.limits) && s.lastStamp == o.stamp
    requires |s.store.frames| > 0 ==> s.store.newest <= o.stamp
    ensures var t := Accumulated(c, s, o);
            && Bounded(t.store, c.limits) && NotBefore(t.store.frames, t.lastStamp - c.limits.window)
            && (|t.store.frames| > 0 ==> t.store.newest <= t.lastStamp)
  {
    var grown := Appended(s.store, c.limits, o.stamp, MapPoints(o.points, SamePoint));
    AppendedBounded(s.store, c.limits, o.stamp, MapPoints(o.points, SamePoint));
    PurgedBounded(grown, c.limits, o.stamp);
    if |Purged(grown, c.limits, o.stamp).frames| > 0 {
      NewestKept(grown, c.limits, o.stamp);
    }
  }

  lemma NewestKept<P>(s: Store<P>, l: Limits, stamp: real)
    requires Bounded(s, l) && |Purged(s, l, stamp).frames| > 0
    ensures |s.frames| > 0 && Purged(s, l, stamp).newest == s.newest
  {
    DropBeforeEnding(s.frames, stamp - l.window);
    EnforcedBounded(DropBefore(s.frames, stamp - l.window), l.points);
  }

  lemma PreparedKeeps(c: Config, s: State, o: Observation)
    ensures var t := Prepared(c, s, o).0; var e := Entered(s, o);
            && t.store == Accumulated(c, e, o).store && t.lastStamp == o.stamp
            && t.final == e.final && t.pending == e.pending && t.stable == e.stable && t.track == e.track
  {}

  lemma GateKeeps(c: Config, s: State, o: Observation, sel: Selected)
    ensures var t := Gate(c, s, o, sel).0; t == s.(pending := t.pending)
  {}

  lemma ProcessKeepsStore(c: Config, s: State, o: Observation)
    ensures var t := Process(c, s, o).0;
            && t.store == Prepared(c, s, o).0.store && t.lastStamp == o.stamp && t.lastResult.Some?
  {
    PreparedKeeps(c, s, o);
    var (t, sel) := Prepared(c, s, o);
    if sel.Some? {
      GateKeeps(c, t, o, sel.value);
    }
  }

  lemma StepStore(c: Config, s: State, o: Observation)
    requires StoreOk(c, s)
    ensures StoreOk(c, Step(c, s, o).0)
  {
    if Admit(c, s, o) == Proceed {
      AccumulatedOk(c, Entered(s, o), o);
      PreparedKeeps(c, s, o);
      ProcessKeepsStore(c, s, o);
    }
  }

  /** On every run the count is exact and bounded, stamps strictly rise and lie inside the last window. */
  lemma {:induction false} RunStore(c: Config, run: seq<Observation>)
    ensures StoreOk(c, After(c, run))
  {
    if |run| > 0 {
      RunStore(c, run[..|run| - 1]);
      StepStore(c, After(c, run[..|run| - 1]), run[|run| - 1]);
    }
  }

  // ---------------------------------------------------------------- top above bottom

  predicate Upright(x: Span) { x.bottom < x.top }

  /** A weight does not turn the sign of a difference. */
  lemma WeightedSign(weight: real, d: real)
    requires weight >= 0.0
    ensures d >= 0.0 ==> weight * d >= 0.0
    ensures d <= 0.0 ==> weight * d <= 0.0
    ensures d > 0.0 && weight > 0.0 ==> weight * d > 0.0
  {}

  lemma MixUpright(alpha: real, x: Span, y: Span)
    requires Unit(alpha) && Upright(x) && Upright(y)
    ensures Upright(Mix(alpha, x, y))
  {
    var dx, dy := x.top - x.bottom, y.top - y.bottom;
    var m := Mix(alpha, x, y);
    assert m.top - m.bottom == alpha * dx + (1.0 - alpha) * dy;
    WeightedSign(alpha, dx);
    WeightedSign(1.0 - alpha, dy);
  }

  predicate Between(x: real, y: real, z: real) { x <= y <= z || z <= y <= x }

  lemma MixBetween(alpha: real, x: real, y: real)
    requires Unit(alpha)
    ensures Between(x, alpha * x + (1.0 - alpha) * y, y)
  {
    var d, m := x - y, alpha * x + (1.0 - alpha) * y;
    assert m - y == alpha * d && x - m == (1.0 - alpha) * d;
    WeightedSign(alpha, d);
    WeightedSign(1.0 - alpha, d);
  }

  lemma MixMoves(alpha: real, x: Span, y: Span, limit: real)
    requires Unit(alpha) && Abs(x.bottom - y.bottom) <= limit
    ensures Abs(Mix(alpha, x, y).bottom - y.bottom) <= limit
  {
    MixBetween(alpha, x.bottom, y.bottom);
  }

  /** An averaged bottom lies between the measurement and the average it continues; the absolute source is not averaged. */
  lemma SmoothBetween(c: Config, s: State, o: Observation, sel: Selected)
    requires ValidConfig(c)
    ensures sel.source == DirectTop || sel.source == RecentStable ==> Smooth(c, s, o, sel).1 == sel
    ensures s.ema.Some? && s.ema.value.source == sel.source && s.ema.value.usesCentre == o.centre.Some? ==>
              Between(sel.span.bottom, Smooth(c, s, o, sel).1.span.bottom, s.ema.value.span.bottom + CentreOf(o))
              || sel.source == DirectTop || sel.source == RecentStable
  {
    if s.ema.Some? {
      MixBetween(c.emaAlpha, sel.span.bottom - CentreOf(o), s.ema.value.span.bottom);
    }
  }

  ghost predicate AllUpright(s: State) {
    && (s.ema.Some? ==> Upright(s.ema.value.span))
    && (s.stable.Some? ==> Upright(s.stable.value.span))
    && (s.stable.Some? && s.stable.value.offsets.Some? ==> Upright(s.stable.value.offsets.value))
    && (s.final.Some? ==> Upright(s.final.value.span))
    && (s.pending.active ==> Upright(s.pending.span))
    && (s.lastResult.Some? ==> ResultUpright(s.lastResult.value))
  }

  ghost predicate ResultUpright(r: Result) {
    r.output.Some? ==> Upright(r.output.value.span)
  }

  lemma SelectUpright(c: Config, s: State, o: Observation)
    requires ValidConfig(c) && HeightsOk(c, o) && AllUpright(s) && Select(c, s, o).Some?
    ensures Upright(Select(c, s, o).value.span)
  {
    if Measured(o).Some? {
      MeasuredIsBest(o, Measured(o).value.source);
    }
  }

  lemma SmoothUpright(c: Config, s: State, o: Observation, sel: Selected)
    requires ValidConfig(c) && AllUpright(s) && Upright(sel.span)
    ensures AllUpright(Smooth(c, s, o, sel).0) && Upright(Smooth(c, s, o, sel).1.span)
    ensures Smooth(c, s, o, sel).1.source == sel.source
  {
    if s.ema.Some? {
      MixUpright(c.emaAlpha, Shifted(sel.span, -CentreOf(o)), s.ema.value.span);
    }
  }

  lemma GateSpanUpright(c: Config, s: State, o: Observation, sel: Selected)
    requires ValidConfig(c) && Upright(sel.span)
    requires s.final.Some? ==> Upright(s.final.value.span)
    requires s.pending.active ==> Upright(s.pending.span)
    ensures Upright(Gate(c, s, o, sel).1.span)
    ensures Gate(c, s, o, sel).0.pending.active ==> Upright(Gate(c, s, o, sel).0.pending.span)
  {
    if Comparable(s, o) {
      MixUpright(c.softAlpha, sel.span, Previous(s, o));
    }
  }

  lemma GateUpright(c: Config, s: State, o: Observation, sel: Selected)
    requires ValidConfig(c) && AllUpright(s) && Upright(sel.span)
    ensures AllUpright(Gate(c, s, o, sel).0) && Upright(Gate(c, s, o, sel).1.span)
  {
    GateSpanUpright(c, s, o, sel);
    GateKeeps(c, s, o, sel);
  }

  lemma EnteredUpright(c: Config, s: State, o: Observation)
    requires AllUpright(s)
    ensures AllUpright(Accumulated(c, Entered(s, o), o))
  {}

  lemma PreparedUpright(c: Config, s: State, o: Observation)
    requires ValidConfig(c) && HeightsOk(c, o) && AllUpright(s)
    ensures AllUpright(Prepared(c, s, o).0)
    ensures Prepared(c, s, o).1.Some? ==> Upright(Prepared(c, s, o).1.value.span)
  {
    var t := Accumulated(c, Entered(s, o), o);
    EnteredUpright(c, s, o);
    if Select(c, t, o).Some? {
      SelectUpright(c, t, o);
      SmoothUpright(c, t, o, Select(c, t, o).value);
    }
  }

  lemma PublishUpright(s: State, o: Observation, absolute: bool, out: Output)
    requires AllUpright(s) && Upright(out.span)
    ensures AllUpright(Publish(s, o, absolute, out).0) && ResultUpright(Publish(s, o, absolute, out).1)
  {}

  lemma ProcessUpright(c: Config, s: State, o: Observation)
    requires ValidConfig(c) && HeightsOk(c, o) && AllUpright(s)
    ensures AllUpright(Process(c, s, o).0) && ResultUpright(Process(c, s, o).1)
  {
    PreparedUpright(c, s, o);
    var (t, sel) := Prepared(c, s, o);
    if sel.Some? {
      GateUpright(c, t, o, sel.value);
      var (u, out) := Gate(c, t, o, sel.value);
      PublishUpright(u, o, sel.value.source == DirectTop, out);
    }
  }

  lemma StepUpright(c: Config, s: State, o: Observation)
    requires AllUpright(s)
    ensures AllUpright(Step(c, s, o).0) && ResultUpright(Step(c, s, o).1)
  {
    if Admit(c, s, o) == Proceed {
      ProcessUpright(c, s, o);
    }
  }

  /** Every output of every run keeps top above bottom, through averaging, blending, holding and confirmation. */
  lemma {:induction false} RunUpright(c: Config, run: seq<Observation>)
    ensures AllUpright(After(c, run))
    ensures |run| > 0 ==> ResultUpright(Step(c, After(c, run[..|run| - 1]), run[|run| - 1]).1)
  {
    if |run| > 0 {
      RunUpright(c, run[..|run| - 1]);
      StepUpright(c, After(c, run[..|run| - 1]), run[|run| - 1]);
    }
  }
}
