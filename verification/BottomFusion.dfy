/**
 The cargo-bottom estimator: source selection by priority, per-source smoothing, and one
 source-independent gate on how far the published bottom may jump.
 */
module BottomFusion {
  import opened Prelude
  import opened BottomAccumulation

  datatype Point = Point(x: real, y: real, z: real)

  datatype Source = Points | MapDiff | MapStatic | RecentStable | OriginHeight | DirectTop

  datatype Span = Span(bottom: real, top: real)

  datatype Config = Config(
    limits: Limits,
    staleReset: real,
    stableHold: real,
    emaAlpha: real,
    directJump: real,
    softJump: real,
    softAlpha: real,
    confirmFrames: nat,
    confirmTolerance: real,
    minHeight: real,
    maxHeight: real,
    restValid: bool)

  /**
   One observation. usable: the track and the transform are valid and the stamp is finite. coherent: the transform
   stamp is aligned and footprint and centre are finite. points: the points in the map frame, None
   where a coordinate is not finite. measured: the vertical span of the visible points when every
   support test but positive height passed. boxed: the horizontal part of the box is valid.
   */
  datatype Observation = Observation(
    usable: bool,
    coherent: bool,
    stamp: real,
    trackId: nat,
    authority: Authority,
    points: seq<Option<Point>>,
    centre: Option<real>,
    top: Option<real>,
    topSupported: bool,
    frozen: Option<real>,
    frozenCertified: bool,
    mapDiff: Option<real>,
    mapStatic: Option<real>,
    origin: Option<real>,
    prior: Option<real>,
    measured: Option<Span>,
    boxed: bool)

  /** Values are offsets from the track centre when usesCentre holds, base-frame heights otherwise. */
  datatype Level = Level(source: Source, usesCentre: bool, span: Span)

  datatype Stable = Stable(trackId: nat, stamp: real, span: Span, offsets: Option<Span>)

  datatype Pending = Pending(active: bool, source: Source, span: Span, count: nat, lastPositive: real, latest: Span)

  datatype Selected = Selected(source: Source, span: Span)

  datatype Output = Output(source: Source, span: Span, held: bool)

  datatype Result = Result(valid: bool, output: Option<Output>)

  datatype State = State(
    track: Option<(nat, Authority)>,
    lastStamp: real,
    store: Store<Point>,
    ema: Option<Level>,
    stable: Option<Stable>,
    final: Option<Level>,
    pending: Pending,
    lastResult: Option<Result>)

  const NOTHING := Result(false, None)
  const NO_STORE: Store<Point> := Store([], 0, 0.0)
  const NO_PENDING := Pending(false, Points, Span(0.0, 0.0), 0, 0.0, Span(0.0, 0.0))
  const INITIAL := State(None, 0.0, NO_STORE, None, None, None, NO_PENDING, None)

  predicate Unit(x: real) { 0.0 <= x <= 1.0 }

  predicate ValidConfig(c: Config) {
    && c.limits.window >= 0.0 && c.limits.tolerance >= 0.0 && c.limits.points > 0
    && c.staleReset > 0.0 && c.stableHold >= 0.0 && Unit(c.emaAlpha)
    && 0.0 <= c.directJump <= c.softJump && Unit(c.softAlpha)
    && c.confirmFrames > 0 && c.confirmTolerance >= 0.0
    && 0.0 < c.minHeight <= c.maxHeight
    && c.restValid
  }

  predicate HeightOk(c: Config, h: Option<real>) {
    h.None? || c.minHeight <= h.value <= c.maxHeight
  }

  predicate HeightsOk(c: Config, o: Observation) {
    && HeightOk(c, o.prior) && HeightOk(c, o.mapDiff) && HeightOk(c, o.mapStatic) && HeightOk(c, o.origin)
    && HeightOk(c, o.frozen) && (o.frozen.Some? ==> o.frozenCertified)
  }

  function SamePoint(p: Point): Point { p }

  // ---------------------------------------------------------------- admission

  function ResetTemporal(s: State): State {
    s.(store := NO_STORE, ema := None, stable := None, final := None, pending := NO_PENDING, lastResult := None)
  }

  datatype Admission = Ignored | Refused | Repeated | Lost | Proceed

  predicate AuthorityChanged(s: State, o: Observation) {
    s.track.Some? && !SameAuthority(s.track.value.1, o.authority) && (|o.points| > 0 || o.top.Some?)
  }

  predicate TrackChanged(s: State, o: Observation) {
    s.track.None? || s.track.value.0 != o.trackId
  }

  predicate CentreLost(s: State, o: Observation) {
    s.final.Some? && s.final.value.usesCentre && o.centre.None?
  }

  /** A changed pose authority goes straight on: rollback, staleness, a lost centre and repetition are not asked. */
  function Admit(c: Config, s: State, o: Observation): Admission {
    if !ValidConfig(c) || !o.usable || o.stamp < 0.0 then Refused
    else if !o.coherent || !HeightsOk(c, o) then Ignored
    else if TrackChanged(s, o) || AuthorityChanged(s, o) then Proceed
    else if o.stamp + c.limits.tolerance < s.lastStamp || o.stamp - s.lastStamp > c.staleReset || CentreLost(s, o) then Lost
    else if o.stamp <= s.lastStamp + c.limits.tolerance && s.lastResult.Some? then Repeated
    else Proceed
  }

  function Entered(s: State, o: Observation): State {
    if TrackChanged(s, o) then ResetTemporal(s).(track := Some((o.trackId, o.authority)), lastStamp := o.stamp)
    else if AuthorityChanged(s, o) then s.(track := Some((o.trackId, o.authority)), store := NO_STORE, lastStamp := o.stamp)
    else s.(lastStamp := o.stamp)
  }

  function Accumulated(c: Config, s: State, o: Observation): State {
    s.(store := Purged(Appended(s.store, c.limits, o.stamp, MapPoints(o.points, SamePoint)), c.limits, o.stamp))
  }

  // ---------------------------------------------------------------- selection

  function Priority(s: Source): nat {
    match s
    case MapDiff => 6
    case DirectTop => 5
    case OriginHeight => 4
    case Points => 3
    case MapStatic => 2
    case RecentStable => 1
  }

  /** A supported source replaces the current choice only with a strictly higher priority. */
  function Offer(current: Option<Selected>, source: Source, span: Option<Span>): Option<Selected> {
    if span.Some? && (current.None? || Priority(source) > Priority(current.value.source)) then Some(Selected(source, span.value))
    else current
  }

  function BelowTop(o: Observation, height: Option<real>): Option<Span> {
    if height.Some? && o.top.Some? then Some(Span(o.top.value - height.value, o.top.value)) else None
  }

  /** What each current source offers. */
  function Offered(o: Observation, source: Source): Option<Span> {
    match source
    case Points => if o.measured.Some? && o.measured.value.top - o.measured.value.bottom > 0.0 then o.measured else None
    case MapDiff => BelowTop(o, o.mapDiff)
    case DirectTop => if o.topSupported then BelowTop(o, o.frozen) else None
    case MapStatic => BelowTop(o, o.mapStatic)
    case OriginHeight => BelowTop(o, o.origin)
    case RecentStable => None
  }

  function Measured(o: Observation): Option<Selected> {
    var a := Offer(None, Points, Offered(o, Points));
    var b := Offer(a, MapDiff, Offered(o, MapDiff));
    var d := Offer(b, DirectTop, Offered(o, DirectTop));
    var e := Offer(d, MapStatic, Offered(o, MapStatic));
    Offer(e, OriginHeight, Offered(o, OriginHeight))
  }

  /** The choice is the offered source of highest priority, with what that source offers. */
  lemma MeasuredIsBest(o: Observation, source: Source)
    ensures Offered(o, source).Some? ==>
              Measured(o).Some? && Priority(source) <= Priority(Measured(o).value.source)
    ensures Measured(o).Some? ==> Offered(o, Measured(o).value.source) == Some(Measured(o).value.span)
  {}

  function Shifted(span: Span, d: real): Span { Span(span.bottom + d, span.top + d) }

  function FromStable(c: Config, s: State, o: Observation): Option<Selected> {
    if s.stable.None? || s.stable.value.trackId != o.trackId then None
    else
      var age := o.stamp - s.stable.value.stamp;
      if !(-c.limits.tolerance <= age <= c.stableHold) then None
      else if s.stable.value.offsets.Some? && o.centre.Some? then
        Some(Selected(RecentStable, Shifted(s.stable.value.offsets.value, o.centre.value)))
      else Some(Selected(RecentStable, s.stable.value.span))
  }

  function Select(c: Config, s: State, o: Observation): Option<Selected> {
    var measured := Measured(o);
    if measured.Some? then measured else FromStable(c, s, o)
  }

  // ---------------------------------------------------------------- smoothing and the gate

  function Mix(alpha: real, x: Span, y: Span): Span {
    Span(alpha * x.bottom + (1.0 - alpha) * y.bottom, alpha * x.top + (1.0 - alpha) * y.top)
  }

  function CentreOf(o: Observation): real {
    if o.centre.Some? then o.centre.value else 0.0
  }

  /** The moving average of one source, kept relative to the track centre when there is one. */
  function Average(c: Config, s: State, o: Observation, sel: Selected): Level {
    var raw := Shifted(sel.span, -CentreOf(o));
    if s.ema.Some? && s.ema.value.source == sel.source && s.ema.value.usesCentre == o.centre.Some?
    then Level(sel.source, o.centre.Some?, Mix(c.emaAlpha, raw, s.ema.value.span))
    else Level(sel.source, o.centre.Some?, raw)
  }

  /** DirectTop is an absolute measurement: it is never averaged and it clears the average. */
  function Smooth(c: Config, s: State, o: Observation, sel: Selected): (State, Selected) {
    if sel.source == RecentStable then (s, sel)
    else if sel.source == DirectTop then (s.(ema := None), sel)
    else
      var level := Average(c, s, o, sel);
      (s.(ema := Some(level)), Selected(sel.source, Shifted(level.span, CentreOf(o))))
  }

  /** The previous output can be compared unless it hangs on a centre that is missing now. */
  predicate Comparable(s: State, o: Observation) {
    s.final.Some? && (s.final.value.usesCentre ==> o.centre.Some?)
  }

  function Previous(s: State, o: Observation): Span
    requires Comparable(s, o)
  {
    if s.final.value.usesCentre then Shifted(s.final.value.span, CentreOf(o)) else s.final.value.span
  }

  function Jump(x: Span, y: Span): real {
    Max(Max(Abs(x.bottom - y.bottom), Abs(x.top - y.top)), Abs((x.top - x.bottom) - (y.top - y.bottom)))
  }

  function Cleared(p: Pending): Pending { p.(active := false, count := 0) }

  predicate GapTooLong(c: Config, p: Pending, stamp: real) {
    p.active && stamp - p.lastPositive > c.stableHold
  }

  predicate Near(c: Config, x: Span, y: Span) {
    Abs(x.bottom - y.bottom) <= c.confirmTolerance && Abs(x.top - y.top) <= c.confirmTolerance
  }

  predicate SamePending(c: Config, p: Pending, sel: Selected) {
    p.active && p.source == sel.source && (sel.source != DirectTop ==> Near(c, p.span, sel.span))
  }

  /** One more update asking for the same large jump, or the first one. */
  function Propose(c: Config, p: Pending, stamp: real, sel: Selected): Pending {
    var counted := if SamePending(c, p, sel) then p.(count := p.count + 1)
                   else p.(active := true, source := sel.source, span := sel.span, count := 1);
    if sel.source == DirectTop then counted.(lastPositive := stamp, latest := sel.span) else counted
  }

  function GateLarge(c: Config, s: State, o: Observation, sel: Selected): (State, Output)
    requires Comparable(s, o)
  {
    if sel.source == DirectTop && sel.span.bottom < Previous(s, o).bottom then
      (s.(pending := Cleared(s.pending)), Output(sel.source, sel.span, false))
    else
      var p := Propose(c, s.pending, o.stamp, sel);
      if p.count < c.confirmFrames then (s.(pending := p), Output(s.final.value.source, Previous(s, o), true))
      else (s.(pending := Cleared(p)), Output(sel.source, if sel.source == DirectTop then p.latest else p.span, false))
  }

  function Gate(c: Config, s: State, o: Observation, sel: Selected): (State, Output) {
    if !Comparable(s, o) then (s, Output(sel.source, sel.span, false))
    else if Jump(sel.span, Previous(s, o)) <= c.directJump then
      if sel.source != RecentStable || GapTooLong(c, s.pending, o.stamp) then
        (s.(pending := Cleared(s.pending)), Output(sel.source, sel.span, false))
      else (s, Output(sel.source, sel.span, false))
    else if Jump(sel.span, Previous(s, o)) <= c.softJump then
      (s.(pending := Cleared(s.pending)), Output(sel.source, Mix(c.softAlpha, sel.span, Previous(s, o)), false))
    else GateLarge(c, s, o, sel)
  }

  // ---------------------------------------------------------------- publishing

  function Publish(s: State, o: Observation, absolute: bool, out: Output): (State, Result) {
    var usesCentre := !absolute && o.centre.Some?;
    var offsets := Shifted(out.span, -CentreOf(o));
    var level := Level(out.source, usesCentre, if usesCentre then offsets else out.span);
    var valid := out.span.top > out.span.bottom && o.boxed;
    var result := Result(valid, Some(out));
    var t := s.(final := Some(level), lastResult := Some(result));
    if valid && out.source != RecentStable && !out.held
    then (t.(stable := Some(Stable(o.trackId, o.stamp, out.span, if usesCentre then Some(offsets) else None))), result)
    else (t, result)
  }

  function NoSelection(c: Config, s: State, o: Observation): (State, Result) {
    var p := if GapTooLong(c, s.pending, o.stamp) then Cleared(s.pending) else s.pending;
    (s.(pending := p, lastResult := Some(NOTHING)), NOTHING)
  }

  /** The state a processed update reaches before the gate, with its candidate. */
  function Prepared(c: Config, s: State, o: Observation): (State, Option<Selected>) {
    var t := Accumulated(c, Entered(s, o), o);
    var sel := Select(c, t, o);
    if sel.None? then (t, None)
    else
      var (u, smooth) := Smooth(c, t, o, sel.value);
      (u, Some(smooth))
  }

  function Process(c: Config, s: State, o: Observation): (State, Result) {
    var (t, sel) := Prepared(c, s, o);
    if sel.None? then NoSelection(c, t, o)
    else
      var (u, out) := Gate(c, t, o, sel.value);
      Publish(u, o, sel.value.source == DirectTop, out)
  }

  function Step(c: Config, s: State, o: Observation): (State, Result) {
    match Admit(c, s, o)
    case Refused => (INITIAL, NOTHING)
    case Ignored => (s, NOTHING)
    case Lost => (ResetTemporal(s).(lastStamp := o.stamp, lastResult := Some(NOTHING)), NOTHING)
    case Repeated => (s, s.lastResult.value)
    case Proceed => Process(c, s, o)
  }

  // ---------------------------------------------------------------- the object

  class Fusion {
    const config: Config
    const accumulator: Accumulator<Point>
    var track: Option<(nat, Authority)>
    var lastStamp: real
    var ema: Option<Level>
    var stable: Option<Stable>
    var final: Option<Level>
    var pending: Pending
    var lastResult: Option<Result>

    function Current(): State
      reads this, accumulator
    {
      State(track, lastStamp, accumulator.Current(), ema, stable, final, pending, lastResult)
    }

    ghost predicate Valid()
      reads this, accumulator
    {
      accumulator.limits == config.limits && accumulator.Valid()
    }

    constructor (c: Config)
      ensures Valid() && config == c && fresh(accumulator) && Current() == INITIAL
    {
      config := c;
      accumulator := new Accumulator(c.limits);
      track, lastStamp, ema, stable, final, pending, lastResult := None, 0.0, None, None, None, NO_PENDING, None;
    }

    method ResetTemporalState()
      requires Valid()
      modifies this, accumulator
      ensures Valid() && Current() == ResetTemporal(old(Current()))
    {
      accumulator.Clear();
      ema, stable, final, pending, lastResult := None, None, None, NO_PENDING, None;
    }

    method Reset()
      requires Valid()
      modifies this, accumulator
      ensures Valid() && Current() == INITIAL
    {
      track, lastStamp := None, 0.0;
      ResetTemporalState();
    }

    method Enter(o: Observation)
      requires Valid() && ValidConfig(config)
      modifies this, accumulator
      ensures Valid() && Current() == Accumulated(config, Entered(old(Current()), o), o)
    {
      if TrackChanged(Current(), o) {
        ResetTemporalState();
        track := Some((o.trackId, o.authority));
      } else if AuthorityChanged(Current(), o) {
        track := Some((o.trackId, o.authority));
        accumulator.Clear();
      }
      lastStamp := o.stamp;
      accumulator.Append(o.stamp, o.points, SamePoint);
      accumulator.Purge(o.stamp);
    }

    method SmoothSelection(o: Observation, sel: Selected) returns (smooth: Selected)
      requires Valid()
      modifies this
      ensures Valid() && (Current(), smooth) == Smooth(config, old(Current()), o, sel)
    {
      smooth := sel;
      if sel.source == DirectTop {
        ema := None;
      } else if sel.source != RecentStable {
        var level := Level(sel.source, o.centre.Some?, Shifted(sel.span, -CentreOf(o)));
        if ema.Some? && ema.value.source == sel.source && ema.value.usesCentre == o.centre.Some? {
          level := level.(span := Mix(config.emaAlpha, level.span, ema.value.span));
        }
        ema := Some(level);
        smooth := Selected(sel.source, Shifted(level.span, CentreOf(o)));
      }
    }

    method ApplyGate(o: Observation, sel: Selected) returns (out: Output)
      requires Valid()
      modifies this
      ensures Valid() && (Current(), out) == Gate(config, old(Current()), o, sel)
    {
      out := Output(sel.source, sel.span, false);
      if final.None? || (final.value.usesCentre && o.centre.None?) {
        return;
      }
      var previous := Previous(Current(), o);
      var jump := Jump(sel.span, previous);
      if jump <= config.directJump {
        if sel.source != RecentStable || GapTooLong(config, pending, o.stamp) {
          pending := Cleared(pending);
        }
      } else if jump <= config.softJump {
        out := out.(span := Mix(config.softAlpha, sel.span, previous));
        pending := Cleared(pending);
      } else if sel.source == DirectTop && sel.span.bottom < previous.bottom {
        pending := Cleared(pending);
      } else {
        if SamePending(config, pending, sel) {
          pending := pending.(count := pending.count + 1);
        } else {
          pending := pending.(active := true, source := sel.source, span := sel.span, count := 1);
        }
        if sel.source == DirectTop {
          pending := pending.(lastPositive := o.stamp, latest := sel.span);
        }
        if pending.count < config.confirmFrames {
          out := Output(final.value.source, previous, true);
        } else {
          out := out.(span := if sel.source == DirectTop then pending.latest else pending.span);
          pending := Cleared(pending);
        }
      }
    }

    method PublishOutput(o: Observation, absolute: bool, out: Output) returns (result: Result)
      requires Valid()
      modifies this
      ensures Valid() && (Current(), result) == Publish(old(Current()), o, absolute, out)
    {
      var usesCentre := !absolute && o.centre.Some?;
      var offsets := Shifted(out.span, -CentreOf(o));
      final := Some(Level(out.source, usesCentre, if usesCentre then offsets else out.span));
      result := Result(out.span.top > out.span.bottom && o.boxed, Some(out));
      if result.valid && out.source != RecentStable && !out.held {
        stable := Some(Stable(o.trackId, o.stamp, out.span, if usesCentre then Some(offsets) else None));
      }
      lastResult := Some(result);
    }

    method ProcessObservation(o: Observation) returns (result: Result)
      requires Valid() && ValidConfig(config)
      modifies this, accumulator
      ensures Valid() && (Current(), result) == Process(config, old(Current()), o)
    {
      Enter(o);
      var sel := Select(config, Current(), o);
      if sel.None? {
        if GapTooLong(config, pending, o.stamp) {
          pending := Cleared(pending);
        }
        lastResult := Some(NOTHING);
        return NOTHING;
      }
      var smooth := SmoothSelection(o, sel.value);
      var out := ApplyGate(o, smooth);
      result := PublishOutput(o, smooth.source == DirectTop, out);
    }

    method Update(o: Observation) returns (result: Result)
      requires Valid()
      modifies this, accumulator
      ensures Valid() && (Current(), result) == Step(config, old(Current()), o)
    {
      match Admit(config, Current(), o)
      case Refused =>
        Reset();
        result := NOTHING;
      case Ignored =>
        result := NOTHING;
      case Lost =>
        ResetTemporalState();
        lastStamp, lastResult := o.stamp, Some(NOTHING);
        result := NOTHING;
      case Repeated =>
        result := lastResult.value;
      case Proceed =>
        result := ProcessObservation(o);
    }
  }
}
