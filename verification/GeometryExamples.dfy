/** Runs of the geometry estimator that show where it does less than a natural reading promises. */
module GeometryExamples {
  import opened Prelude
  import opened Sorting
  import opened GeometryThickness
  import opened GeometryFusion
  import opened GeometryRuns
  import opened GeometryStreaks
  import opened GeometryExpansion
  import opened GeometryWindows

  /** One frame confirms a positive-only freeze and a shrink step, three an expansion and a formal geometry. */
  function Sample(): Config {
    Config(Rules(0.1, 3.0, 0.2, 0.1, 0.5, 0.01, (x: real) => 0.0), 3, 1, 3, 2.0, 1.0, 0.1, 1, 0.5, false, 3, 0.5, 0.5, 0.5, 1,
           0.5, 0.5, 0.5, 0.5, true, false, true)
  }

  const LIVE := Thickness(LiveExtent, Full, 1.0, 0.1, 1.0, true)

  /** A square, fully evidenced frame of segment 0 with one live thickness measurement. */
  function Square(lifecycle: nat, stamp: real, yaw: Option<real>, side: real, staticSide: real): Frame {
    Frame(lifecycle, 0, Some(stamp), true, false, Some(Point(0.0, 0.0, 0.0)), true, Some(side), Some(side), yaw, Some(2.0), 0.0, 0.0,
          1, 1.0, true, staticSide, staticSide, [LIVE])
  }

  lemma {:induction false} BestLive(r: Rules, t: Thickness, source: Source)
    requires t.source == LiveExtent && Usable(r, t)
    ensures Best(r, [t], source, false) == if source == LiveExtent then Some(t) else None
  {
    assert [t][..0] == [];
    assert Best(r, [], source, false).None?;
  }

  /** A placed square offers one positive-only height of one metre. */
  lemma SquareHeight(f: Frame)
    requires f.thickness == [LIVE] && Placed(f) && f.warningStable
    ensures HeightOf(Sample(), f) == Some(1.0) && Gather(Sample(), f).pair.None?
  {
    var r := Sample().rules;
    BestLive(r, LIVE, StaticOrigin);
    BestLive(r, LIVE, RevealedSupport);
    BestLive(r, LIVE, LiveExtent);
    assert PositiveEstimate(r, None, LIVE).height == 1.0;
  }

  lemma MedianOne(x: real)
    ensures Median([x]) == x
  {
    MedianIsMember([x]);
  }

  lemma MedianTwo(x: real, y: real)
    requires y < x
    ensures Median([x, y]) == x
  {
    assert [x, y][1..] == [y];
    assert [y][1..] == [];
    assert SortBy(Less, [y]) == [y];
    assert SortBy(Less, [x, y]) == [y, x];
  }

  lemma SpreadSmall(values: seq<real>)
    requires |values| > 0 && forall v :: v in values ==> 1.5 <= v <= 3.5
    ensures Spread(values, Median(values)) <= 2.0
  {
    MedianIsMember(values);
    var m := Median(values);
    var residuals := seq(|values|, i requires 0 <= i < |values| => Abs(values[i] - m));
    forall k | 0 <= k < |residuals| ensures residuals[k] <= 2.0 {
      assert values[k] in values;
    }
    MedianCapped(residuals, 2.0);
  }

  /** Sides between one and a half and three and a half metres. */
  predicate Fitting(sizes: seq<Size>) {
    && |sizes| > 0
    && forall i :: 0 <= i < |sizes| ==> 1.5 <= sizes[i].length <= 3.5 && 1.5 <= sizes[i].width <= 3.5
  }

  lemma SteadySmall(sizes: seq<Size>)
    requires Fitting(sizes)
    ensures Steady(Sample(), sizes)
  {
    SpreadSmall(Lengths(sizes));
    SpreadSmall(Widths(sizes));
  }

  lemma {:induction false} CountOne(x: real)
    ensures CountNear([x], x, 0.1) == 1
  {
    assert [x][..0] == [];
  }

  lemma SquareIsRipe(f: Frame, shapes: seq<Size>)
    requires f.thickness == [LIVE] && Placed(f) && f.warningStable && Fitting(shapes)
    ensures Ripe(Sample(), f, shapes, [1.0])
  {
    SquareHeight(f);
    MedianOne(1.0);
    CountOne(1.0);
    SteadySmall(shapes);
  }

  /** A placed square freezes a geometry, if its windows hold fitting shapes and no other height. */
  lemma SquareFreezes(s: State, f: Frame, shapes: seq<Size>)
    requires f.thickness == [LIVE] && Placed(f) && f.warningStable && !s.geometry.frozen && Fitting(shapes)
    requires Good(HeightPushed(Sample(), s, f)) == [1.0] && Good(ShapePushed(Sample(), s, f)) == shapes
    ensures var t := PendingStep(Sample(), s, f);
            t.geometry.frozen && t.geometry.lifecycle == f.lifecycle && FrozenFrom(Sample(), f, shapes, [1.0], t.geometry)
  {
    SquareIsRipe(f, shapes);
    FreezesExactly(Sample(), s, f);
    PendingWindows(Sample(), s, f);
  }

  lemma MedianSquares()
    ensures MedianSize([Size(2.0, 2.0)]) == Size(2.0, 2.0) && MedianSize([Size(3.0, 3.0), Size(2.0, 2.0)]) == Size(3.0, 3.0)
  {
    MedianOne(2.0);
    MedianTwo(3.0, 2.0);
    assert Lengths([Size(2.0, 2.0)]) == [2.0] && Widths([Size(2.0, 2.0)]) == [2.0];
    assert Lengths([Size(3.0, 3.0), Size(2.0, 2.0)]) == [3.0, 2.0] && Widths([Size(3.0, 3.0), Size(2.0, 2.0)]) == [3.0, 2.0];
  }

  lemma AdoptedSide(f: Frame, shapes: seq<Size>, heights: seq<real>, g: Geometry, side: real)
    requires FrozenFrom(Sample(), f, shapes, heights, g) && f.staticLength == 0.0 && f.staticWidth == 0.0
    requires MedianSize(shapes) == Size(side, side) && side >= 0.5
    ensures SizeNow(g) == Size(side, side)
  {}

  /** A frame that reaches a geometry that is not frozen. */
  lemma PendingIsStep(s: State, f: Frame)
    requires Advances(s, f) && f.lifecycle != 0 && !Met(Sample(), s, f).geometry.frozen
    ensures Step(Sample(), s, f) == PendingStep(Sample(), Met(Sample(), s, f), f)
  {}

  predicate Ready(f: Frame) {
    f.thickness == [LIVE] && Placed(f) && f.warningStable && f.staticLength == 0.0 && f.staticWidth == 0.0
  }

  /** Where no frame was placed before, the only height of the window is this frame's. */
  lemma OnlyHeight(s: State, f: Frame)
    requires Ready(f) && s.mode.None?
    ensures Good(HeightPushed(Sample(), s, f)) == [1.0]
  {
    SquareHeight(f);
    assert (if HeightKept(Sample(), s, f) then s.thicknessWindow else []) == [];
    assert HeightPushed(Sample(), s, f) == [Some(1.0)];
    GoodOne(1.0);
  }

  ghost predicate Sides(shapes: seq<Size>, side: real) {
    Fitting(shapes) && MedianSize(shapes) == Size(side, side) && side >= 0.5
  }

  lemma SidesKnown()
    ensures Sides([Size(2.0, 2.0)], 2.0) && Sides([Size(3.0, 3.0), Size(2.0, 2.0)], 3.0)
  {
    MedianSquares();
  }

  lemma StepSquare(s: State, f: Frame, shapes: seq<Size>, side: real)
    requires Advances(s, f) && f.lifecycle != 0 && !Met(Sample(), s, f).geometry.frozen && Ready(f)
    requires Met(Sample(), s, f).mode.None? && Good(ShapePushed(Sample(), Met(Sample(), s, f), f)) == shapes
    requires Sides(shapes, side)
    ensures var t := Step(Sample(), s, f);
            t.geometry.frozen && t.geometry.lifecycle == f.lifecycle && SizeNow(t.geometry) == Size(side, side)
  {
    var u := Met(Sample(), s, f);
    PendingIsStep(s, f);
    OnlyHeight(u, f);
    SquareFreezes(u, f, shapes);
    AdoptedSide(f, shapes, [1.0], PendingStep(Sample(), u, f).geometry, side);
  }

  lemma StepKeeps(s: State, f: Frame)
    requires Advances(s, f) && f.lifecycle != 0 && !Met(Sample(), s, f).geometry.frozen
    ensures var t := Step(Sample(), s, f); t.lastStamp == f.stamp.value && t.shrinkWindow == Met(Sample(), s, f).shrinkWindow
  {
    var u := Met(Sample(), s, f);
    PendingIsStep(s, f);
    PendingStamp(Sample(), u, f);
    PendingKeepsShrink(Sample(), u, f);
  }

  lemma AfterOne(f: Frame)
    ensures After(Sample(), [f]) == Step(Sample(), INITIAL, f)
  {
    assert [f][..0] == [];
    assert After(Sample(), []) == INITIAL;
  }

  lemma GoodOne<T>(x: T)
    ensures Good([Some(x)]) == [x]
  {
    assert [Some(x)][..0] == [];
    assert Good<T>([]) == [];
  }

  lemma GoodTwo<T>(x: T, y: T)
    ensures Good([Some(x), Some(y)]) == [x, y]
  {
    GoodOne(x);
    assert [Some(x), Some(y)][..1] == [Some(x)];
  }

  lemma FirstSquareShape(s: State, f: Frame) returns (shapes: seq<Size>)
    requires s.shapeWindow == [] && f == Square(1, 1.0, Some(0.0), 2.0, 0.0)
    ensures Good(ShapePushed(Sample(), s, f)) == shapes && Sides(shapes, 2.0)
  {
    shapes := [Size(2.0, 2.0)];
    SidesKnown();
    assert ShapePushed(Sample(), s, f) == [Some(Size(2.0, 2.0))];
    GoodOne(Size(2.0, 2.0));
  }

  /** Nothing was dropped before the frame. */
  lemma MetAsIs(t: State, f: Frame)
    requires f.stamp.Some? && t.geometry.lifecycle == 0
    requires t.lastStamp == 0.0 || f.stamp.value - t.lastStamp <= Sample().maxGap
    ensures Met(Sample(), t, f) == t.(lastStamp := f.stamp.value)
  {}

  lemma FirstEnters(t: State, f: Frame)
    requires f == Square(1, 1.0, Some(0.0), 2.0, 0.0)
    requires t.shapeWindow == [] && t.mode.None? && t.geometry.lifecycle == 0 && !t.geometry.frozen && t.lastStamp == 0.0
    ensures var g := Step(Sample(), t, f).geometry; g.frozen && g.lifecycle == 1 && SizeNow(g) == Size(2.0, 2.0)
  {
    MetAsIs(t, f);
    var shapes := FirstSquareShape(t.(lastStamp := 1.0), f);
    StepSquare(t, f, shapes, 2.0);
  }

  lemma FirstSquareFreezes(f: Frame)
    requires f == Square(1, 1.0, Some(0.0), 2.0, 0.0)
    ensures var g := After(Sample(), [f]).geometry; g.frozen && g.lifecycle == 1 && SizeNow(g) == Size(2.0, 2.0)
    ensures After(Sample(), [f]) == Step(Sample(), INITIAL, f)
    ensures After(Sample(), [f]).lastStamp == 1.0 && After(Sample(), [f]).shrinkWindow == []
  {
    AfterOne(f);
    FirstEnters(INITIAL, f);
    StepKeeps(INITIAL, f);
  }

  /** A smaller square with a static lower bound of three metres lifts a frozen square of two metres. */
  lemma SmallSquareLifts(j: State, f: Frame)
    requires SizeNow(j.geometry) == Size(2.0, 2.0) && j.shrinkWindow == []
    requires f == Square(1, 1.5, Some(0.0), 1.5, 3.0)
    ensures Lifts(Sample(), j, f) && !Confirms(Sample(), j, f)
    ensures Dimensions(Sample(), j, f).geometry.length == 3.0
  {
    var size := Size(1.5, 1.5);
    GoodOne(size);
    assert LastN([Some(size)], 3) == [Some(size)];
    assert [] + [Some(size)] == [Some(size)];
    SteadySmall([size]);
    MedianOne(1.5);
    assert Lengths([size]) == [1.5] && Widths([size]) == [1.5];
  }

  /**
   A square of two metres freezes; a smaller square whose static lower bound has grown to three metres
   completes no chain, and yet its shrink step raises the frozen length to three metres.
   */
  lemma ShrinkStepLifts()
    ensures var c, first, next := Sample(), Square(1, 1.0, Some(0.0), 2.0, 0.0), Square(1, 1.5, Some(0.0), 1.5, 3.0);
            var s := After(c, [first]);
            && Reaches(c, [first], next, s) && s.geometry.length == 2.0
            && Lifts(c, Judging(c, s, next), next) && !Confirms(c, Judging(c, s, next), next)
            && Step(c, s, next).geometry.length == 3.0
  {
    var c, first, next := Sample(), Square(1, 1.0, Some(0.0), 2.0, 0.0), Square(1, 1.5, Some(0.0), 1.5, 3.0);
    var s := After(c, [first]);
    FirstSquareFreezes(first);
    JudgingWindow(c, s, next);
    StepSizes(c, s, next);
    SmallSquareLifts(Judging(c, s, next), next);
  }

  /** The unplaced square leaves its shape, and neither a lifecycle nor a mode. */
  lemma UnplacedSquare(f: Frame)
    requires f == Square(1, 1.0, None, 3.0, 0.0)
    ensures var t := After(Sample(), [f]);
            && t.shapeWindow == [Some(Size(3.0, 3.0))] && t.shapeSegment == 0 && t.mode.None?
            && t.geometry.lifecycle == 0 && !t.geometry.frozen && t.lastStamp == 1.0
  {
    var s := INITIAL.(lastStamp := 1.0);
    AfterOne(f);
    PendingIsStep(INITIAL, f);
    PendingWindows(Sample(), s, f);
    PendingStamp(Sample(), s, f);
    assert ShapePushed(Sample(), s, f) == [Some(Size(3.0, 3.0))];
  }

  lemma ForeignShape(s: State, f: Frame) returns (shapes: seq<Size>)
    requires f == Square(2, 1.5, Some(0.0), 2.0, 0.0)
    requires s.shapeWindow == [Some(Size(3.0, 3.0))] && s.shapeSegment == 0
    ensures Good(ShapePushed(Sample(), s, f)) == shapes && Sides(shapes, 3.0)
  {
    shapes := [Size(3.0, 3.0), Size(2.0, 2.0)];
    SidesKnown();
    assert ShapePushed(Sample(), s, f) == [Some(Size(3.0, 3.0)), Some(Size(2.0, 2.0))];
    GoodTwo(Size(3.0, 3.0), Size(2.0, 2.0));
  }

  lemma ForeignEnters(t: State, f: Frame)
    requires f == Square(2, 1.5, Some(0.0), 2.0, 0.0)
    requires t.shapeWindow == [Some(Size(3.0, 3.0))] && t.shapeSegment == 0 && t.mode.None?
    requires t.geometry.lifecycle == 0 && !t.geometry.frozen && t.lastStamp == 1.0
    ensures var g := Step(Sample(), t, f).geometry; g.frozen && g.lifecycle == 2 && SizeNow(g) == Size(3.0, 3.0)
  {
    MetAsIs(t, f);
    var shapes := ForeignShape(t.(lastStamp := 1.5), f);
    StepSquare(t, f, shapes, 3.0);
  }

  /**
   Before the first placed frame no lifecycle is compared: the shape of an unplaced frame of lifecycle 1
   enters the window, and the length frozen for lifecycle 2 is the one that only that frame measured.
   */
  lemma ForeignShapeCounts()
    ensures var c, first, next := Sample(), Square(1, 1.0, None, 3.0, 0.0), Square(2, 1.5, Some(0.0), 2.0, 0.0);
            var g := Step(c, After(c, [first]), next).geometry;
            g.frozen && g.lifecycle == 2 && g.length == 3.0
  {
    var c, first, next := Sample(), Square(1, 1.0, None, 3.0, 0.0), Square(2, 1.5, Some(0.0), 2.0, 0.0);
    UnplacedSquare(first);
    ForeignEnters(After(c, [first]), next);
  }
}
