/**
 Thickness evidence of the suspended cargo: the best observation per source, the pairs that may
 authorise formal geometry, and their robust fusion.
 */
module GeometryThickness {
  import opened Prelude
  import opened Sorting

  datatype Source = StaticOrigin | RevealedSupport | LiveExtent | RetiredShape | ConfiguredFallback

  datatype Constraint = Full | LowerBound | PriorOnly

  datatype Thickness = Thickness(source: Source, constraint: Constraint, height: real, uncertainty: real, confidence: real, valid: bool)

  /** root is the square root of the fused variance. */
  datatype Rules = Rules(
    minHeight: real,
    maxHeight: real,
    disagreement: real,
    huberDelta: real,
    maxUncertainty: real,
    uncertaintyFloor: real,
    root: real -> real)

  // ---------------------------------------------------------------- order statistics

  predicate Less(x: real, y: real) { x < y }

  /** The element nth_element places in the middle; zero for no values. */
  function Median(values: seq<real>): real {
    if |values| == 0 then 0.0
    else
      SameMembers(SortBy(Less, values), values);
      SortBy(Less, values)[|values| / 2]
  }

  lemma MedianIsMember(values: seq<real>)
    requires |values| > 0
    ensures Median(values) in values
  {
    SameMembers(SortBy(Less, values), values);
    assert SortBy(Less, values)[|values| / 2] in SortBy(Less, values);
  }

  function Spread(values: seq<real>, centre: real): real {
    Median(seq(|values|, i requires 0 <= i < |values| => Abs(values[i] - centre)))
  }

  // ---------------------------------------------------------------- the best observation of a source

  predicate Usable(r: Rules, t: Thickness) {
    t.valid && r.minHeight <= t.height <= r.maxHeight && t.uncertainty > 0.0 && t.confidence > 0.0
  }

  function Product(x: real, y: real): real { x * y }

  function Weight(t: Thickness): real {
    if Product(t.uncertainty, t.uncertainty) == 0.0 then 0.0 else t.confidence / Product(t.uncertainty, t.uncertainty)
  }

  predicate Eligible(r: Rules, t: Thickness, source: Source, fullOnly: bool) {
    Usable(r, t) && t.source == source && (fullOnly ==> t.constraint == Full)
  }

  function Better(r: Rules, best: Option<Thickness>, t: Thickness, source: Source, fullOnly: bool): Option<Thickness> {
    if Eligible(r, t, source, fullOnly) && (best.None? || Weight(t) > Weight(best.value)) then Some(t) else best
  }

  function Best(r: Rules, all: seq<Thickness>, source: Source, fullOnly: bool): Option<Thickness> {
    if |all| == 0 then None
    else Better(r, Best(r, all[..|all| - 1], source, fullOnly), all[|all| - 1], source, fullOnly)
  }

  /** The heaviest eligible observation, absent exactly when none is eligible. */
  lemma {:induction false} BestIsHeaviest(r: Rules, all: seq<Thickness>, source: Source, fullOnly: bool, t: Thickness)
    ensures var best := Best(r, all, source, fullOnly);
            && (best.Some? ==> best.value in all && Eligible(r, best.value, source, fullOnly))
            && (t in all && Eligible(r, t, source, fullOnly) ==> best.Some? && Weight(t) <= Weight(best.value))
  {
    if |all| > 0 {
      var front, last := all[..|all| - 1], all[|all| - 1];
      BestIsHeaviest(r, front, source, fullOnly, t);
      assert all == front + [last];
    }
  }

  /** The one loop over a frame's observations. */
  method BestBySource(r: Rules, all: seq<Thickness>, fullLive: bool)
    returns (origin: Option<Thickness>, revealed: Option<Thickness>, live: Option<Thickness>)
    ensures origin == Best(r, all, StaticOrigin, false)
    ensures revealed == Best(r, all, RevealedSupport, false)
    ensures live == Best(r, all, LiveExtent, fullLive)
  {
    origin, revealed, live := None, None, None;
    for k := 0 to |all|
      invariant origin == Best(r, all[..k], StaticOrigin, false)
      invariant revealed == Best(r, all[..k], RevealedSupport, false)
      invariant live == Best(r, all[..k], LiveExtent, fullLive)
    {
      var t := all[k];
      assert all[..k + 1][..k] == all[..k];
      if Usable(r, t) {
        if t.source == LiveExtent && (!fullLive || t.constraint == Full) {
          if live.None? || Weight(t) > Weight(live.value) {
            live := Some(t);
          }
        } else if t.source == StaticOrigin {
          if origin.None? || Weight(t) > Weight(origin.value) {
            origin := Some(t);
          }
        } else if t.source == RevealedSupport {
          if revealed.None? || Weight(t) > Weight(revealed.value) {
            revealed := Some(t);
          }
        }
      }
    }
    assert all[..|all|] == all;
  }

  // ---------------------------------------------------------------- formal pairs

  predicate Agree(r: Rules, a: Option<Thickness>, b: Option<Thickness>) {
    && a.Some? && b.Some? && a.value.constraint == Full && b.value.constraint == Full
    && Abs(a.value.height - b.value.height) <= r.disagreement
  }

  function BestStatic(origin: Option<Thickness>, revealed: Option<Thickness>): Option<Thickness> {
    if revealed.Some? then revealed else origin
  }

  /** Two full measurements that agree: both static sources first, else a static one with the live extent. */
  function FormalPair(r: Rules, origin: Option<Thickness>, revealed: Option<Thickness>, live: Option<Thickness>): Option<(Thickness, Thickness)> {
    if Agree(r, origin, revealed) then Some((origin.value, revealed.value))
    else if Agree(r, BestStatic(origin, revealed), live) then Some((BestStatic(origin, revealed).value, live.value))
    else None
  }

  datatype Estimate = Estimate(height: real, uncertainty: real, lower: real, upper: real)

  /** The lower height if it carries half of the weight, else the higher one. */
  function PairMedian(a: Thickness, b: Thickness): real {
    var low, high := if b.height < a.height then b else a, if b.height < a.height then a else b;
    if Weight(low) >= 0.5 * (Weight(a) + Weight(b)) then low.height else high.height
  }

  function Huber(r: Rules, t: Thickness, centre: real): real {
    var residual := Abs(t.height - centre);
    if residual <= r.huberDelta || residual == 0.0 then Weight(t) else Weight(t) * (r.huberDelta / residual)
  }

  function WeightFloor(sum: real): real
    ensures WeightFloor(sum) > 0.0
  {
    Max(sum, 0.000001)
  }

  function FusedHeight(wa: real, wb: real, a: real, b: real): real {
    (wa * a + wb * b) / WeightFloor(wa + wb)
  }

  function FusePair(r: Rules, a: Thickness, b: Thickness): Estimate {
    var centre := PairMedian(a, b);
    var wa, wb := Huber(r, a, centre), Huber(r, b, centre);
    var height := FusedHeight(wa, wb, a.height, b.height);
    var da, db := a.height - height, b.height - height;
    var variance := (Weight(a) * da * da + Weight(b) * db * db) / WeightFloor(wa + wb);
    var uncertainty := r.root(1.0 / WeightFloor(wa + wb) + variance);
    Estimate(height, uncertainty, Max(r.minHeight, height - uncertainty), Min(r.maxHeight, height + uncertainty))
  }

  lemma NonNegativeFactor(d: real, s: real)
    requires s > 0.0 && d * s >= 0.0
    ensures d >= 0.0
  {}

  lemma QuotientBetween(x: real, sum: real, low: real, high: real)
    requires sum > 0.0 && low * sum <= x <= high * sum
    ensures low <= x / sum <= high
  {
    var q := x / sum;
    assert q * sum == x;
    assert (q - low) * sum >= 0.0 && (high - q) * sum >= 0.0;
    NonNegativeFactor(q - low, sum);
    NonNegativeFactor(high - q, sum);
  }

  /** With enough weight the fused height is a weighted mean: it lies between the two measurements. */
  lemma FusedBetween(wa: real, wb: real, a: real, b: real)
    requires wa >= 0.0 && wb >= 0.0 && wa + wb >= 0.000001
    ensures Min(a, b) <= FusedHeight(wa, wb, a, b) <= Max(a, b)
  {
    var low, high, x := Min(a, b), Max(a, b), wa * a + wb * b;
    assert wa * (a - low) >= 0.0 && wb * (b - low) >= 0.0;
    assert wa * (high - a) >= 0.0 && wb * (high - b) >= 0.0;
    assert low * (wa + wb) <= x <= high * (wa + wb);
    QuotientBetween(x, wa + wb, low, high);
  }

  /** The weighted median of two is the height of the heavier measurement; of equally heavy ones the lower. */
  lemma PairMedianIsHeavier(a: Thickness, b: Thickness)
    ensures Weight(a) > Weight(b) ==> PairMedian(a, b) == a.height
    ensures Weight(b) > Weight(a) ==> PairMedian(a, b) == b.height
    ensures Weight(a) == Weight(b) ==> PairMedian(a, b) == Min(a.height, b.height)
  {}

  lemma WeightPositive(r: Rules, t: Thickness)
    requires Usable(r, t)
    ensures Weight(t) > 0.0
  {
    ProductPositive(t.uncertainty, t.uncertainty);
    QuotientPositive(t.confidence, Product(t.uncertainty, t.uncertainty));
  }

  lemma ProductPositive(x: real, y: real)
    requires x > 0.0 && y > 0.0
    ensures Product(x, y) > 0.0
  {}

  lemma QuotientPositive(x: real, y: real)
    requires x > 0.0 && y > 0.0
    ensures x / y > 0.0
  {
    var q := x / y;
    assert q * y == x;
    NonNegativeFactor(q, y);
  }

  lemma HuberPositive(r: Rules, t: Thickness, centre: real)
    requires Usable(r, t) && r.huberDelta > 0.0
    ensures 0.0 < Huber(r, t, centre) <= Weight(t)
  {
    WeightPositive(r, t);
    var residual := Abs(t.height - centre);
    if residual > r.huberDelta {
      var ratio := r.huberDelta / residual;
      QuotientPositive(r.huberDelta, residual);
      QuotientBetween(r.huberDelta, residual, 0.0, 1.0);
      assert Weight(t) * ratio > 0.0;
      assert Weight(t) * (1.0 - ratio) >= 0.0;
    }
  }

  /**
   Two usable measurements with enough robust weight: the fused height lies between them, the bounds
   enclose it and stay inside the physical range.
   */
  lemma FusePairIsSound(r: Rules, a: Thickness, b: Thickness)
    requires Usable(r, a) && Usable(r, b) && r.huberDelta > 0.0
    requires Huber(r, a, PairMedian(a, b)) + Huber(r, b, PairMedian(a, b)) >= 0.000001
    requires forall x: real :: r.root(x) >= 0.0
    ensures var e := FusePair(r, a, b);
            && Min(a.height, b.height) <= e.height <= Max(a.height, b.height)
            && r.minHeight <= e.lower <= e.height <= e.upper <= r.maxHeight
  {
    var centre := PairMedian(a, b);
    HuberPositive(r, a, centre);
    HuberPositive(r, b, centre);
    FusedBetween(Huber(r, a, centre), Huber(r, b, centre), a.height, b.height);
  }

  /** Positive-only geometry takes the largest credible height and the largest credible upper end. */
  function PositiveEstimate(r: Rules, best: Option<Thickness>, live: Thickness): Estimate {
    var lower := Max(if best.Some? then Max(0.0, best.value.height) else 0.0, live.height);
    var reach := Max(if best.Some? then Max(0.0, best.value.height + best.value.uncertainty) else 0.0, live.height + live.uncertainty);
    var height := Min(Max(lower, r.minHeight), r.maxHeight);
    var upper := Min(Max(reach, height), r.maxHeight);
    var uncertainty := Max(upper - height, r.uncertaintyFloor);
    Estimate(height, uncertainty, lower, Min(r.maxHeight, Max(upper, height + uncertainty)))
  }
}
