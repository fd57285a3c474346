/**
 The cargo geometry estimator: windows of shape and thickness evidence until the geometry freezes,
 then promotion, confirmed expansion, bounded shrinking and the conservative bottom.
 */
module GeometryFusion {
  import opened Prelude
  import opened GeometryThickness

  datatype Point = Point(x: real, y: real, z: real)

  datatype Config = Config(
    rules: Rules,
    confirmFrames: nat,
    positiveConfirmFrames: nat,
    windowFrames: nat,
    maxSpread: real,
    maxGap: real,
    margin: real,
    shrinkConfirmFrames: nat,
    maxShrink: real,
    immediateExpand: bool,
    expandConfirmFrames: nat,
    expandConfidence: real,
    initialConfidence: real,
    shrinkConfidence: real,
    minSupport: nat,
    minLength: real,
    minWidth: real,
    startLength: real,
    startWidth: real,
    positiveWithoutStatic: bool,
    positiveOnConflict: bool,
    restValid: bool)

  /** stamp, centre, length, width, yaw and top are None when they are invalid or not finite. */
  datatype Frame = Frame(
    lifecycle: nat,
    segment: nat,
    stamp: Option<real>,
    warningStable: bool,
    formalLocked: bool,
    centre: Option<Point>,
    footprintValid: bool,
    length: Option<real>,
    width: Option<real>,
    yaw: Option<real>,
    top: Option<real>,
    topUncertainty: real,
    trackingUncertainty: real,
    support: nat,
    confidence: real,
    complete: bool,
    staticLength: real,
    staticWidth: real,
    thickness: seq<Thickness>)

  datatype Authorization = PendingAuthority | PositiveOnly | Formal

  datatype Geometry = Geometry(
    valid: bool,
    frozen: bool,
    formal: bool,
    authorization: Authorization,
    lifecycle: nat,
    segment: nat,
    centre: Point,
    length: real,
    width: real,
    height: real,
    yaw: real,
    uncertainty: real,
    lower: real,
    upper: real,
    bottom: Option<real>,
    conservative: Option<real>,
    confirmed: nat)

  datatype Size = Size(length: real, width: real)

  /** A window entry is None for a frame without full evidence. */
  type Window = seq<Option<Size>>

  datatype Expansion = Expansion(count: nat, segment: nat, pending: Size)

  datatype State = State(
    geometry: Geometry,
    lastStamp: real,
    shrinkSegment: nat,
    shrinkWindow: Window,
    expansion: Expansion,
    promotionSegment: nat,
    promotionCount: nat,
    shapeSegment: nat,
    shapeWindow: Window,
    thicknessSegment: nat,
    thicknessWindow: seq<Option<real>>,
    mode: Option<bool>)

  const NO_SIZE := Size(0.0, 0.0)
  const NO_GEOMETRY := Geometry(false, false, false, PendingAuthority, 0, 0, Point(0.0, 0.0, 0.0), 0.0, 0.0, 0.0, 0.0, 1.0, 0.0, 0.0, None, None, 0)
  const INITIAL := State(NO_GEOMETRY, 0.0, 0, [], Expansion(0, 0, NO_SIZE), 0, 0, 0, [], 0, [], None)

  predicate ValidConfig(c: Config) {
    && c.confirmFrames > 0 && c.positiveConfirmFrames > 0
    && c.windowFrames >= c.confirmFrames && c.windowFrames >= c.positiveConfirmFrames
    && c.maxSpread > 0.0 && c.maxGap > 0.0 && c.margin >= 0.0
    && c.shrinkConfirmFrames > 0 && c.maxShrink > 0.0 && c.expandConfirmFrames > 0
    && c.minSupport > 0 && c.minLength > 0.0 && c.minWidth > 0.0
    && c.startLength >= c.minLength && c.startWidth >= c.minWidth
    && 0.0 < c.rules.minHeight < c.rules.maxHeight
    && c.rules.disagreement > 0.0 && c.rules.huberDelta > 0.0 && c.rules.maxUncertainty > 0.0 && c.rules.uncertaintyFloor > 0.0
    && c.restValid
  }

  function LastN<T>(w: seq<T>, n: nat): seq<T> {
    if |w| > n then w[|w| - n..] else w
  }

  function Good<T>(w: seq<Option<T>>): seq<T> {
    if |w| == 0 then []
    else if w[|w| - 1].Some? then Good(w[..|w| - 1]) + [w[|w| - 1].value]
    else Good(w[..|w| - 1])
  }

  function Lengths(sizes: seq<Size>): seq<real> { seq(|sizes|, i requires 0 <= i < |sizes| => sizes[i].length) }
  function Widths(sizes: seq<Size>): seq<real> { seq(|sizes|, i requires 0 <= i < |sizes| => sizes[i].width) }

  function MedianSize(sizes: seq<Size>): Size { Size(Median(Lengths(sizes)), Median(Widths(sizes))) }

  predicate Steady(c: Config, sizes: seq<Size>) {
    && Spread(Lengths(sizes), Median(Lengths(sizes))) <= c.maxSpread
    && Spread(Widths(sizes), Median(Widths(sizes))) <= c.maxSpread
  }

  /** Full dimension evidence at the given shape confidence. */
  predicate Evidence(c: Config, f: Frame, confidence: real) {
    && f.footprintValid
    && f.length.Some? && f.length.value > 0.0
    && f.width.Some? && f.width.value > 0.0
    && f.complete && f.support >= c.minSupport && f.confidence >= confidence
  }

  function SizeOf(c: Config, f: Frame, confidence: real): Option<Size> {
    if Evidence(c, f, confidence) then Some(Size(f.length.value, f.width.value)) else None
  }

  // ---------------------------------------------------------------- the frozen geometry: promotion and pose

  predicate Continuous(c: Config, previous: real, stamp: real) {
    previous <= 0.0 || stamp - previous <= c.maxGap
  }

  function PromotionPair(c: Config, f: Frame): Option<(Thickness, Thickness)> {
    FormalPair(c.rules, Best(c.rules, f.thickness, StaticOrigin, false), Best(c.rules, f.thickness, RevealedSupport, false),
               Best(c.rules, f.thickness, LiveExtent, true))
  }

  predicate Promotes(c: Config, f: Frame) {
    && f.formalLocked && f.centre.Some? && Evidence(c, f, c.shrinkConfidence)
    && PromotionPair(c, f).Some?
    && FusePair(c.rules, PromotionPair(c, f).value.0, PromotionPair(c, f).value.1).uncertainty <= c.rules.maxUncertainty
  }

  function Granted(g: Geometry, e: Estimate): Geometry {
    g.(formal := true, authorization := Formal, height := e.height, uncertainty := e.uncertainty, lower := e.lower, upper := e.upper)
  }

  /** Formal authority is granted after enough promoting frames of one segment without a gap; it is never withdrawn. */
  function Promotion(c: Config, s: State, f: Frame, continuous: bool): State {
    var t := if f.segment != s.promotionSegment || !continuous then s.(promotionCount := 0, promotionSegment := f.segment) else s;
    if t.geometry.formal then t
    else
      var count := if Promotes(c, f) then t.promotionCount + 1 else 0;
      var u := t.(promotionCount := count);
      if count >= c.confirmFrames && Promotes(c, f)
      then u.(geometry := Granted(u.geometry, FusePair(c.rules, PromotionPair(c, f).value.0, PromotionPair(c, f).value.1)))
      else u
  }

  function ClearExpansion(e: Expansion): Expansion { e.(count := 0, pending := NO_SIZE) }

  /** A new segment or a gap drops both confirmation streaks. */
  function Segment(s: State, f: Frame, continuous: bool): State {
    var t := if f.segment != s.shrinkSegment then s.(shrinkSegment := f.segment, shrinkWindow := []) else s;
    var u := if f.segment != t.expansion.segment || !continuous then t.(expansion := Expansion(0, f.segment, NO_SIZE)) else t;
    if continuous then u else u.(shrinkWindow := [])
  }

  function BottomOf(g: Geometry, f: Frame): Option<real> {
    if f.top.Some? then Some(f.top.value - g.height)
    else if f.centre.Some? then Some(f.centre.value.z - 0.5 * g.height)
    else g.bottom
  }

  function TopAllowance(formal: bool, f: Frame): real {
    if formal then Max(0.0, f.topUncertainty) else Max(0.15, 3.0 * Max(0.0, f.topUncertainty))
  }

  function Conservative(c: Config, bottom: real, height: real, thickness: real, formal: bool, f: Frame): real {
    bottom + height - thickness - Max(0.0, f.trackingUncertainty) - TopAllowance(formal, f) - c.margin
  }

  function Pose(c: Config, g: Geometry, f: Frame): Geometry {
    var h := g.(segment := f.segment, centre := if f.centre.Some? then f.centre.value else g.centre, bottom := BottomOf(g, f));
    if h.bottom.None? then h
    else
      var thickness := if h.formal then h.height + h.uncertainty else Max(h.height, h.upper);
      h.(conservative := Some(Conservative(c, h.bottom.value, h.height, thickness, h.formal, f)))
  }

  // ---------------------------------------------------------------- the frozen geometry: dimensions

  function ClearBoth(s: State): State {
    s.(shrinkWindow := [], expansion := ClearExpansion(s.expansion))
  }

  function Larger(g: Geometry, size: Size): Size { Size(Max(g.length, size.length), Max(g.width, size.width)) }

  function Resized(g: Geometry, size: Size): Geometry { g.(length := size.length, width := size.width) }

  predicate Expands(g: Geometry, size: Size) { size.length > g.length || size.width > g.width }

  /** What every frame of the streak supports, including this one. */
  function Supported(e: Expansion, larger: Size): Size {
    if e.count == 0 then larger else Size(Min(e.pending.length, larger.length), Min(e.pending.width, larger.width))
  }

  function Expand(c: Config, s: State, size: Size): State {
    var supported := Supported(s.expansion, Larger(s.geometry, size));
    if s.expansion.count + 1 >= c.expandConfirmFrames
    then s.(geometry := Resized(s.geometry, Larger(s.geometry, supported)), shrinkWindow := [], expansion := ClearExpansion(s.expansion))
    else s.(shrinkWindow := [], expansion := s.expansion.(count := s.expansion.count + 1, pending := supported))
  }

  function Floor(c: Config, f: Frame): Size {
    Size(Max(c.minLength, Max(0.0, f.staticLength)), Max(c.minWidth, Max(0.0, f.staticWidth)))
  }

  /** At most maxShrink per frame, not below the windowed median, not below the floor. */
  function Shrunk(c: Config, g: Geometry, floor: Size, median: Size): Size {
    Size(Max(floor.length, Max(median.length, g.length - c.maxShrink)), Max(floor.width, Max(median.width, g.width - c.maxShrink)))
  }

  /** A confirmed, steady window is spent on one shrink step. */
  function ShrinkIf(c: Config, s: State, floor: Size): State {
    var sizes := Good(s.shrinkWindow);
    if |sizes| >= c.shrinkConfirmFrames && Steady(c, sizes)
    then s.(geometry := Resized(s.geometry, Shrunk(c, s.geometry, floor, MedianSize(sizes))), shrinkWindow := [])
    else s
  }

  function Shrink(c: Config, s: State, f: Frame, size: Size): State {
    ShrinkIf(c, s.(shrinkWindow := LastN(s.shrinkWindow + [Some(size)], c.windowFrames), expansion := ClearExpansion(s.expansion)),
             Floor(c, f))
  }

  function Dimensions(c: Config, s: State, f: Frame): State {
    if !Evidence(c, f, c.shrinkConfidence) then
      s.(shrinkWindow := LastN(s.shrinkWindow + [None], c.windowFrames), expansion := ClearExpansion(s.expansion))
    else
      var size := Size(f.length.value, f.width.value);
      if Expands(s.geometry, size) then
        if !Evidence(c, f, c.expandConfidence) then ClearBoth(s)
        else if c.immediateExpand then ClearBoth(s).(geometry := Resized(s.geometry, Larger(s.geometry, size)))
        else Expand(c, s, size)
      else if size.length < s.geometry.length || size.width < s.geometry.width then Shrink(c, s, f, size)
      else ClearBoth(s)
  }

  function Poised(c: Config, s: State, f: Frame, continuous: bool): State {
    var t := Segment(Promotion(c, s, f, continuous), f, continuous);
    t.(geometry := Pose(c, t.geometry, f))
  }

  function FrozenStep(c: Config, s: State, f: Frame, continuous: bool): State {
    var t := Dimensions(c, Poised(c, s, f, continuous), f);
    t.(geometry := t.geometry.(valid := f.centre.Some? && t.geometry.bottom.Some?))
  }

  // ---------------------------------------------------------------- before the freeze

  function Windows(c: Config, s: State, f: Frame): State {
    var shape := if f.segment != s.shapeSegment then [] else s.shapeWindow;
    var thickness := if f.segment != s.thicknessSegment then [] else s.thicknessWindow;
    s.(shapeSegment := f.segment, shapeWindow := LastN(shape + [SizeOf(c, f, c.initialConfidence)], c.windowFrames),
       thicknessSegment := f.segment, thicknessWindow := LastN(thickness + [None], c.windowFrames))
  }

  predicate Placed(f: Frame) {
    && f.centre.Some? && f.footprintValid && f.yaw.Some?
    && f.length.Some? && f.length.value > 0.0 && f.width.Some? && f.width.value > 0.0
  }

  datatype Evidences = Evidences(pair: Option<(Thickness, Thickness)>, best: Option<Thickness>, live: Option<Thickness>)

  function Gather(c: Config, f: Frame): Evidences {
    var origin := Best(c.rules, f.thickness, StaticOrigin, false);
    var revealed := Best(c.rules, f.thickness, RevealedSupport, false);
    var live := Best(c.rules, f.thickness, LiveExtent, false);
    Evidences(if f.formalLocked then FormalPair(c.rules, origin, revealed, live) else None, BestStatic(origin, revealed), live)
  }

  predicate Compatible(c: Config, best: Thickness, live: Thickness) {
    && best.constraint == Full
    && ((live.constraint == LowerBound && live.height <= best.height + c.rules.disagreement)
        || (live.constraint == Full && Abs(live.height - best.height) <= c.rules.disagreement))
  }

  predicate PositiveCandidate(c: Config, f: Frame, e: Evidences) {
    && f.warningStable && e.live.Some?
    && if e.best.None? then c.positiveWithoutStatic
       else
         || Compatible(c, e.best.value, e.live.value)
         || (c.positiveOnConflict && e.live.value.height > e.best.value.height + c.rules.disagreement)
  }

  /** Switching between formal and positive-only evidence restarts the thickness window. */
  function SetMode(s: State, formal: bool): State {
    if s.mode == Some(formal) then s else s.(mode := Some(formal), thicknessWindow := [None])
  }

  function Estimated(c: Config, e: Evidences): Estimate
    requires e.pair.Some? || e.live.Some?
  {
    if e.pair.Some? then FusePair(c.rules, e.pair.value.0, e.pair.value.1) else PositiveEstimate(c.rules, e.best, e.live.value)
  }

  function Refused(s: State): State { s.(geometry := s.geometry.(valid := false, confirmed := 0)) }

  function SetLast(w: seq<Option<real>>, x: real): seq<Option<real>> {
    if |w| == 0 then w else w[|w| - 1 := Some(x)]
  }

  function CountNear(values: seq<real>, centre: real, tolerance: real): nat {
    if |values| == 0 then 0
    else CountNear(values[..|values| - 1], centre, tolerance) + if Abs(values[|values| - 1] - centre) <= tolerance then 1 else 0
  }

  /** The bounds restated around the windowed median height. */
  function Recentred(c: Config, formal: bool, e: Estimate, height: real): Estimate {
    if formal then e.(height := height, lower := Max(c.rules.minHeight, height - e.uncertainty), upper := Min(c.rules.maxHeight, height + e.uncertainty))
    else e.(height := height, lower := height, upper := Min(c.rules.maxHeight, Max(e.upper, height + e.uncertainty)))
  }

  function Freeze(c: Config, g: Geometry, f: Frame, formal: bool, e: Estimate, median: Size): Geometry
    requires f.centre.Some? && f.yaw.Some?
  {
    var bottom := if f.top.Some? then f.top.value - e.height else f.centre.value.z - 0.5 * e.height;
    var thickness := if formal then e.height + e.uncertainty else e.upper;
    g.(valid := true, frozen := true, formal := formal, authorization := if formal then Formal else PositiveOnly,
       centre := f.centre.value, yaw := f.yaw.value,
       length := Max(Max(median.length, c.startLength), Max(c.minLength, f.staticLength)),
       width := Max(Max(median.width, c.startWidth), Max(c.minWidth, f.staticWidth)),
       height := e.height, uncertainty := e.uncertainty, lower := e.lower, upper := e.upper,
       bottom := Some(bottom), conservative := Some(Conservative(c, bottom, e.height, thickness, formal, f)))
  }

  /** The number of candidates near the windowed median, and the estimate moved to that median. */
  function TallyAt(c: Config, candidates: seq<real>, robust: real, formal: bool, e: Estimate): (nat, Estimate) {
    var tolerance := 0.5 * c.rules.disagreement;
    if Abs(e.height - robust) <= tolerance then (CountNear(candidates, robust, tolerance), Recentred(c, formal, e, robust))
    else (0, e)
  }

  function Tally(c: Config, candidates: seq<real>, formal: bool, e: Estimate): (nat, Estimate) {
    TallyAt(c, candidates, Median(candidates), formal, e)
  }

  /** Freeze when thickness and shape are both confirmed. */
  function FreezeIf(c: Config, s: State, f: Frame, formal: bool, confirmed: nat, e: Estimate): State
    requires f.centre.Some? && f.yaw.Some?
  {
    var shapes := Good(s.shapeWindow);
    var required := if formal then c.confirmFrames else c.positiveConfirmFrames;
    var g := s.geometry.(valid := false, confirmed := confirmed, lower := e.lower, upper := e.upper);
    if confirmed >= required && |shapes| >= required && Steady(c, shapes)
    then s.(geometry := Freeze(c, g, f, formal, e, MedianSize(shapes)),
            shrinkSegment := f.segment, expansion := s.expansion.(segment := f.segment))
    else s.(geometry := g)
  }

  function Confirm(c: Config, s: State, f: Frame, formal: bool, e: Estimate): State
    requires f.centre.Some? && f.yaw.Some?
  {
    var t := s.(thicknessWindow := SetLast(s.thicknessWindow, e.height));
    var (confirmed, r) := Tally(c, Good(t.thicknessWindow), formal, e);
    FreezeIf(c, t, f, formal, confirmed, r)
  }

  function PendingStep(c: Config, s: State, f: Frame): State {
    var t := Windows(c, s, f);
    if !Placed(f) then t.(geometry := t.geometry.(valid := false))
    else
      var e := Gather(c, f);
      var u := SetMode(t.(geometry := t.geometry.(lifecycle := f.lifecycle, segment := f.segment)), e.pair.Some?);
      if e.pair.None? && !PositiveCandidate(c, f, e) then
        Refused(u).(geometry := Refused(u).geometry.(authorization := PendingAuthority))
      else if e.pair.Some? && Estimated(c, e).uncertainty > c.rules.maxUncertainty then Refused(u)
      else Confirm(c, u, f, e.pair.Some?, Estimated(c, e))
  }

  // ---------------------------------------------------------------- one update

  predicate Advances(s: State, f: Frame) {
    f.stamp.Some? && f.stamp.value > 0.0 && (s.lastStamp > 0.0 ==> f.stamp.value > s.lastStamp)
  }

  function Timed(c: Config, s: State, f: Frame): State
    requires f.stamp.Some?
  {
    var t := s.(lastStamp := f.stamp.value);
    if !s.geometry.frozen && s.lastStamp > 0.0 && f.stamp.value - s.lastStamp > c.maxGap
    then t.(geometry := t.geometry.(confirmed := 0), thicknessWindow := [], shapeWindow := [])
    else t
  }

  predicate OtherLifecycle(s: State, f: Frame) {
    s.geometry.lifecycle != 0 && s.geometry.lifecycle != f.lifecycle
  }

  function Step(c: Config, s: State, f: Frame): State {
    if !ValidConfig(c) then
      s.(geometry := s.geometry.(valid := false, frozen := false, formal := false, authorization := PendingAuthority))
    else if !Advances(s, f) then INITIAL
    else
      var t := Timed(c, s, f);
      if f.lifecycle == 0 then t.(geometry := t.geometry.(valid := false))
      else
        var u := if OtherLifecycle(t, f) then INITIAL.(lastStamp := f.stamp.value) else t;
        if u.geometry.frozen then FrozenStep(c, u, f, Continuous(c, s.lastStamp, f.stamp.value))
        else PendingStep(c, u, f)
  }

  // ---------------------------------------------------------------- the loops

  /** Pop the oldest entries until at most n are left. */
  method Trim<T>(window: seq<T>, n: nat) returns (w: seq<T>)
    ensures w == LastN(window, n)
  {
    w := window;
    while |w| > n
      invariant |w| <= |window| && w == window[|window| - |w|..]
      invariant |window| <= n ==> w == window
      invariant |window| > n ==> |w| >= n
    {
      w := w[1..];
    }
  }

  method CollectGood<T>(window: seq<Option<T>>) returns (values: seq<T>)
    ensures values == Good(window)
  {
    values := [];
    for k := 0 to |window|
      invariant values == Good(window[..k])
    {
      assert window[..k + 1][..k] == window[..k];
      if window[k].Some? {
        values := values + [window[k].value];
      }
    }
    assert window[..|window|] == window;
  }

  method CountAgreeing(values: seq<real>, centre: real, tolerance: real) returns (n: nat)
    ensures n == CountNear(values, centre, tolerance)
  {
    n := 0;
    for k := 0 to |values|
      invariant n == CountNear(values[..k], centre, tolerance)
    {
      assert values[..k + 1][..k] == values[..k];
      if Abs(values[k] - centre) <= tolerance {
        n := n + 1;
      }
    }
    assert values[..|values|] == values;
  }

  // ---------------------------------------------------------------- the object

  class Fusion {
    const config: Config
    var geometry: Geometry
    var lastStamp: real
    var shrinkSegment: nat
    var shrinkWindow: Window
    var expansion: Expansion
    var promotionSegment: nat
    var promotionCount: nat
    var shapeSegment: nat
    var shapeWindow: Window
    var thicknessSegment: nat
    var thicknessWindow: seq<Option<real>>
    var mode: Option<bool>

    ghost function Current(): State
      reads this
    {
      State(geometry, lastStamp, shrinkSegment, shrinkWindow, expansion, promotionSegment, promotionCount,
            shapeSegment, shapeWindow, thicknessSegment, thicknessWindow, mode)
    }

    constructor (c: Config)
      ensures config == c && Current() == INITIAL
    {
      config := c;
      geometry, lastStamp, mode := NO_GEOMETRY, 0.0, None;
      shrinkSegment, shrinkWindow, expansion := 0, [], Expansion(0, 0, NO_SIZE);
      promotionSegment, promotionCount := 0, 0;
      shapeSegment, shapeWindow, thicknessSegment, thicknessWindow := 0, [], 0, [];
    }

    method Reset()
      modifies this
      ensures Current() == INITIAL
    {
      geometry, lastStamp, mode := NO_GEOMETRY, 0.0, None;
      shrinkSegment, shrinkWindow, expansion := 0, [], Expansion(0, 0, NO_SIZE);
      promotionSegment, promotionCount := 0, 0;
      shapeSegment, shapeWindow, thicknessSegment, thicknessWindow := 0, [], 0, [];
    }

    method FindPromotionPair(f: Frame) returns (pair: Option<(Thickness, Thickness)>)
      ensures pair == PromotionPair(config, f)
    {
      var origin, revealed, live := BestBySource(config.rules, f.thickness, true);
      pair := FormalPair(config.rules, origin, revealed, live);
    }

    method Promote(f: Frame, continuous: bool)
      modifies this
      ensures Current() == Promotion(config, old(Current()), f, continuous)
    {
      if f.segment != promotionSegment || !continuous {
        promotionCount, promotionSegment := 0, f.segment;
      }
      if geometry.formal {
        return;
      }
      var pair := FindPromotionPair(f);
      if f.formalLocked && f.centre.Some? && Evidence(config, f, config.shrinkConfidence) && pair.Some? {
        var fused := FusePair(config.rules, pair.value.0, pair.value.1);
        if fused.uncertainty <= config.rules.maxUncertainty {
          promotionCount := promotionCount + 1;
          if promotionCount >= config.confirmFrames {
            geometry := Granted(geometry, fused);
          }
          return;
        }
      }
      promotionCount := 0;
    }

    method ResetSegments(f: Frame, continuous: bool)
      modifies this
      ensures Current() == Segment(old(Current()), f, continuous)
    {
      if f.segment != shrinkSegment {
        shrinkSegment, shrinkWindow := f.segment, [];
      }
      if f.segment != expansion.segment || !continuous {
        expansion := Expansion(0, f.segment, NO_SIZE);
      }
      if !continuous {
        shrinkWindow := [];
      }
    }

    method UpdatePose(f: Frame)
      modifies this
      ensures Current() == old(Current()).(geometry := Pose(config, old(geometry), f))
    {
      geometry := geometry.(segment := f.segment);
      if f.centre.Some? {
        geometry := geometry.(centre := f.centre.value);
      }
      if f.top.Some? {
        geometry := geometry.(bottom := Some(f.top.value - geometry.height));
      } else if f.centre.Some? {
        geometry := geometry.(bottom := Some(f.centre.value.z - 0.5 * geometry.height));
      }
      if geometry.bottom.Some? {
        var thickness := if geometry.formal then geometry.height + geometry.uncertainty else Max(geometry.height, geometry.upper);
        geometry := geometry.(conservative :=
          Some(Conservative(config, geometry.bottom.value, geometry.height, thickness, geometry.formal, f)));
      }
    }

    method ExpandBy(size: Size)
      modifies this
      ensures Current() == Expand(config, old(Current()), size)
    {
      shrinkWindow := [];
      var larger := Larger(geometry, size);
      var pending := if expansion.count == 0 then larger
                     else Size(Min(expansion.pending.length, larger.length), Min(expansion.pending.width, larger.width));
      expansion := expansion.(count := expansion.count + 1, pending := pending);
      if expansion.count >= config.expandConfirmFrames {
        geometry := Resized(geometry, Larger(geometry, expansion.pending));
        expansion := ClearExpansion(expansion);
      }
    }

    method ShrinkIfConfirmed(floor: Size)
      modifies this
      ensures Current() == ShrinkIf(config, old(Current()), floor)
    {
      var sizes := CollectGood(shrinkWindow);
      var steady, median := Steady(config, sizes), MedianSize(sizes);
      if |sizes| >= config.shrinkConfirmFrames && steady {
        geometry := Resized(geometry, Shrunk(config, geometry, floor, median));
        shrinkWindow := [];
      }
    }

    method ShrinkBy(f: Frame, size: Size)
      modifies this
      ensures Current() == Shrink(config, old(Current()), f, size)
    {
      expansion := ClearExpansion(expansion);
      shrinkWindow := Trim(shrinkWindow + [Some(size)], config.windowFrames);
      ShrinkIfConfirmed(Floor(config, f));
    }

    method UpdateDimensions(f: Frame)
      modifies this
      ensures Current() == Dimensions(config, old(Current()), f)
    {
      if !Evidence(config, f, config.shrinkConfidence) {
        shrinkWindow := Trim(shrinkWindow + [None], config.windowFrames);
        expansion := ClearExpansion(expansion);
        return;
      }
      var size := Size(f.length.value, f.width.value);
      var expands, strong := Expands(geometry, size), Evidence(config, f, config.expandConfidence);
      if config.immediateExpand && expands && strong {
        geometry := Resized(geometry, Larger(geometry, size));
        shrinkWindow, expansion := [], ClearExpansion(expansion);
      } else if expands && strong {
        ExpandBy(size);
      } else if !expands && (size.length < geometry.length || size.width < geometry.width) {
        ShrinkBy(f, size);
      } else {
        shrinkWindow, expansion := [], ClearExpansion(expansion);
      }
    }

    method UpdateFrozen(f: Frame, continuous: bool)
      modifies this
      ensures Current() == FrozenStep(config, old(Current()), f, continuous)
    {
      Promote(f, continuous);
      ResetSegments(f, continuous);
      UpdatePose(f);
      UpdateDimensions(f);
      geometry := geometry.(valid := f.centre.Some? && geometry.bottom.Some?);
    }

    method PushWindows(f: Frame)
      modifies this
      ensures Current() == Windows(config, old(Current()), f)
    {
      if shapeSegment != f.segment {
        shapeSegment, shapeWindow := f.segment, [];
      }
      if thicknessSegment != f.segment {
        thicknessSegment, thicknessWindow := f.segment, [];
      }
      thicknessWindow := Trim(thicknessWindow + [None], config.windowFrames);
      shapeWindow := Trim(shapeWindow + [SizeOf(config, f, config.initialConfidence)], config.windowFrames);
    }

    method CountAround(candidates: seq<real>, robust: real, formal: bool, e: Estimate) returns (confirmed: nat, r: Estimate)
      ensures (confirmed, r) == TallyAt(config, candidates, robust, formal, e)
    {
      confirmed, r := 0, e;
      var tolerance := 0.5 * config.rules.disagreement;
      if Abs(e.height - robust) <= tolerance {
        confirmed := CountAgreeing(candidates, robust, tolerance);
        r := Recentred(config, formal, e, robust);
      }
    }

    method TallyCandidates(formal: bool, e: Estimate) returns (confirmed: nat, r: Estimate)
      ensures (confirmed, r) == Tally(config, Good(thicknessWindow), formal, e)
    {
      var candidates := CollectGood(thicknessWindow);
      confirmed, r := CountAround(candidates, Median(candidates), formal, e);
    }

    method FreezeIfConfirmed(f: Frame, formal: bool, confirmed: nat, e: Estimate)
      requires f.centre.Some? && f.yaw.Some?
      modifies this
      ensures Current() == FreezeIf(config, old(Current()), f, formal, confirmed, e)
    {
      var sizes := CollectGood(shapeWindow);
      var required := if formal then config.confirmFrames else config.positiveConfirmFrames;
      var steady, median := Steady(config, sizes), MedianSize(sizes);
      geometry := geometry.(valid := false, confirmed := confirmed, lower := e.lower, upper := e.upper);
      if confirmed >= required && |sizes| >= required && steady {
        geometry := Freeze(config, geometry, f, formal, e, median);
        shrinkSegment := f.segment;
        expansion := expansion.(segment := f.segment);
      }
    }

    method ConfirmEstimate(f: Frame, formal: bool, e: Estimate)
      requires f.centre.Some? && f.yaw.Some?
      modifies this
      ensures Current() == Confirm(config, old(Current()), f, formal, e)
    {
      thicknessWindow := SetLast(thicknessWindow, e.height);
      var confirmed, r := TallyCandidates(formal, e);
      FreezeIfConfirmed(f, formal, confirmed, r);
    }

    method GatherEvidence(f: Frame) returns (e: Evidences)
      ensures e == Gather(config, f)
    {
      var origin, revealed, live := BestBySource(config.rules, f.thickness, false);
      e := Evidences(if f.formalLocked then FormalPair(config.rules, origin, revealed, live) else None, BestStatic(origin, revealed), live);
    }

    method UpdatePending(f: Frame)
      modifies this
      ensures Current() == PendingStep(config, old(Current()), f)
    {
      PushWindows(f);
      if !Placed(f) {
        geometry := geometry.(valid := false);
        return;
      }
      var e := GatherEvidence(f);
      geometry := geometry.(lifecycle := f.lifecycle, segment := f.segment);
      if mode != Some(e.pair.Some?) {
        mode, thicknessWindow := Some(e.pair.Some?), [None];
      }
      if e.pair.None? && !PositiveCandidate(config, f, e) {
        geometry := geometry.(valid := false, confirmed := 0, authorization := PendingAuthority);
        return;
      }
      var estimate := Estimated(config, e);
      if e.pair.Some? && estimate.uncertainty > config.rules.maxUncertainty {
        geometry := geometry.(valid := false, confirmed := 0);
        return;
      }
      ConfirmEstimate(f, e.pair.Some?, estimate);
    }

    /** A gap before the freeze drops what has been confirmed so far. */
    method AdvanceClock(f: Frame)
      requires f.stamp.Some?
      modifies this
      ensures Current() == Timed(config, old(Current()), f)
    {
      var previous := lastStamp;
      lastStamp := f.stamp.value;
      if !geometry.frozen && previous > 0.0 && f.stamp.value - previous > config.maxGap {
        geometry := geometry.(confirmed := 0);
        thicknessWindow, shapeWindow := [], [];
      }
    }

    method Update(f: Frame)
      modifies this
      ensures Current() == Step(config, old(Current()), f)
    {
      if !ValidConfig(config) {
        geometry := geometry.(valid := false, frozen := false, formal := false, authorization := PendingAuthority);
        return;
      }
      var previous := lastStamp;
      if f.stamp.None? || f.stamp.value <= 0.0 || (lastStamp > 0.0 && f.stamp.value <= lastStamp) {
        Reset();
        return;
      }
      AdvanceClock(f);
      if f.lifecycle == 0 {
        geometry := geometry.(valid := false);
        return;
      }
      if geometry.lifecycle != 0 && geometry.lifecycle != f.lifecycle {
        Reset();
        lastStamp := f.stamp.value;
      }
      if geometry.frozen {
        UpdateFrozen(f, Continuous(config, previous, f.stamp.value));
      } else {
        UpdatePending(f);
      }
    }
  }
}
