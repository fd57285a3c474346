/**
 What the robust statistics of the geometry estimator are: the median splits the values, the spread
 bounds how far the nearer half lies off, and the fused height balances its two measurements.
 */
module GeometryMedians {
  import opened Prelude
  import opened Sorting
  import opened GeometryThickness
  import opened GeometryFusion

  function Among(values: seq<real>, counts: real -> bool): nat {
    if |values| == 0 then 0 else (if counts(values[0]) then 1 else 0) + Among(values[1..], counts)
  }

  ghost predicate Ascending(values: seq<real>) {
    forall i, j :: 0 <= i <= j < |values| ==> values[i] <= values[j]
  }

  // ---------------------------------------------------------------- sorting keeps every count

  lemma {:induction false} InsertAscends(x: real, values: seq<real>, counts: real -> bool)
    requires Ascending(values)
    ensures Ascending(Insert(Less, x, values))
    ensures Among(Insert(Less, x, values), counts) == Among(values, counts) + (if counts(x) then 1 else 0)
  {
    if values != [] && !Less(x, values[0]) {
      var rest := Insert(Less, x, values[1..]);
      InsertAscends(x, values[1..], counts);
      forall i | 0 <= i < |rest| ensures values[0] <= rest[i] {
        InsertMembers(Less, x, values[1..], rest[i]);
      }
      assert ([values[0]] + rest)[1..] == rest;
    } else {
      assert ([x] + values)[1..] == values;
      assert values == [] ==> [x] + values == [x];
    }
  }

  lemma {:induction false} SortAscends(values: seq<real>, counts: real -> bool)
    ensures Ascending(SortBy(Less, values)) && Among(SortBy(Less, values), counts) == Among(values, counts)
  {
    if values != [] {
      SortAscends(values[1..], counts);
      InsertAscends(values[0], SortBy(Less, values[1..]), counts);
    }
  }

  lemma {:induction false} AmongSome(values: seq<real>, counts: real -> bool, n: nat)
    requires n <= |values|
    ensures (forall i :: 0 <= i < n ==> counts(values[i])) ==> Among(values, counts) >= n
    ensures (forall i :: n <= i < |values| ==> !counts(values[i])) ==> Among(values, counts) <= n
    ensures (forall i :: 0 <= i < n ==> !counts(values[i])) ==> Among(values, counts) <= |values| - n
  {
    if |values| > 0 {
      AmongSome(values[1..], counts, if n > 0 then n - 1 else 0);
    }
  }

  // ---------------------------------------------------------------- median and spread

  /** Fewer than half of the values lie above the median, and no more than half below it. */
  lemma {:induction false} MedianSplits(values: seq<real>)
    requires |values| > 0
    ensures 2 * Among(values, x => x < Median(values)) <= |values|
    ensures 2 * Among(values, x => x > Median(values)) < |values|
  {
    var sorted, k := SortBy(Less, values), |values| / 2;
    SameMembers(sorted, values);
    SortAscends(values, x => x < Median(values));
    SortAscends(values, x => x > Median(values));
    AmongSome(sorted, x => x < Median(values), k);
    AmongSome(sorted, x => x > Median(values), k + 1);
  }

  /** The median is at most d exactly when more than half of the values are. */
  lemma {:induction false} MedianAtMost(values: seq<real>, d: real)
    requires |values| > 0
    ensures Median(values) <= d <==> 2 * Among(values, x => x <= d) > |values|
  {
    var sorted, k := SortBy(Less, values), |values| / 2;
    SameMembers(sorted, values);
    SortAscends(values, x => x <= d);
    AmongSome(sorted, x => x <= d, k + 1);
    AmongSome(sorted, x => x <= d, k);
  }

  lemma {:induction false} DeviationsCount(values: seq<real>, centre: real, d: real)
    ensures Among(seq(|values|, i requires 0 <= i < |values| => Abs(values[i] - centre)), x => x <= d)
            == Among(values, x => Abs(x - centre) <= d)
  {
    if |values| > 0 {
      var all := seq(|values|, i requires 0 <= i < |values| => Abs(values[i] - centre));
      var rest := values[1..];
      DeviationsCount(rest, centre, d);
      assert all[1..] == seq(|rest|, i requires 0 <= i < |rest| => Abs(rest[i] - centre));
    }
  }

  /** The spread is at most d exactly when more than half of the values lie within d of the centre. */
  lemma {:induction false} SpreadAtMost(values: seq<real>, centre: real, d: real)
    requires |values| > 0
    ensures Spread(values, centre) <= d <==> 2 * Among(values, x => Abs(x - centre) <= d) > |values|
  {
    MedianAtMost(seq(|values|, i requires 0 <= i < |values| => Abs(values[i] - centre)), d);
    DeviationsCount(values, centre, d);
  }

  /** Sizes are steady exactly when in each dimension more than half of them lie within the tolerance of their median. */
  lemma SteadyExactly(c: Config, sizes: seq<Size>)
    requires |sizes| > 0
    ensures Steady(c, sizes) <==>
              && 2 * Among(Lengths(sizes), x => Abs(x - Median(Lengths(sizes))) <= c.maxSpread) > |sizes|
              && 2 * Among(Widths(sizes), x => Abs(x - Median(Widths(sizes))) <= c.maxSpread) > |sizes|
  {
    SpreadAtMost(Lengths(sizes), Median(Lengths(sizes)), c.maxSpread);
    SpreadAtMost(Widths(sizes), Median(Widths(sizes)), c.maxSpread);
  }

  // ---------------------------------------------------------------- the fused pair

  lemma Balance(wa: real, wb: real, a: real, b: real)
    requires wa + wb >= 0.000001
    ensures Product(wa, FusedHeight(wa, wb, a, b) - a) == Product(wb, b - FusedHeight(wa, wb, a, b))
  {
    var h, sum := FusedHeight(wa, wb, a, b), wa + wb;
    assert h * sum == wa * a + wb * b;
    assert wa * (h - a) - wb * (b - h) == h * sum - (wa * a + wb * b);
  }

  /** The share that a measurement keeps: all of its weight near the heavier one, less the farther it lies off. */
  function Share(r: Rules, t: Thickness, anchor: real): real
    requires r.huberDelta > 0.0
  {
    var off := if t.height < anchor then anchor - t.height else t.height - anchor;
    if off <= r.huberDelta then Weight(t) else Weight(t) * (r.huberDelta / off)
  }

  lemma WeightIsInverseVariance(t: Thickness)
    requires t.uncertainty > 0.0
    ensures Weight(t) * (t.uncertainty * t.uncertainty) == t.confidence
  {
    ProductPositive(t.uncertainty, t.uncertainty);
  }

  /** The height that the heavier measurement of a pair gives; of equally heavy ones the lower. */
  predicate Anchors(a: Thickness, b: Thickness, anchor: real) {
    && (Weight(a) > Weight(b) ==> anchor == a.height) && (Weight(b) > Weight(a) ==> anchor == b.height)
    && (Weight(a) == Weight(b) ==> anchor == if b.height < a.height then b.height else a.height)
  }

  lemma ShareIsHuber(r: Rules, t: Thickness, anchor: real)
    requires r.huberDelta > 0.0
    ensures Share(r, t, anchor) == Huber(r, t, anchor)
  {}

  lemma FusedOfPair(r: Rules, a: Thickness, b: Thickness)
    ensures var anchor := PairMedian(a, b);
            FusePair(r, a, b).height == FusedHeight(Huber(r, a, anchor), Huber(r, b, anchor), a.height, b.height)
  {}

  /** The fused height hangs between the two measurements like a beam loaded with their shares. */
  lemma FusedBalances(r: Rules, a: Thickness, b: Thickness, anchor: real)
    requires Usable(r, a) && Usable(r, b) && r.huberDelta > 0.0 && Anchors(a, b, anchor)
    requires Share(r, a, anchor) + Share(r, b, anchor) >= 0.000001
    ensures var h := FusePair(r, a, b).height;
            Product(Share(r, a, anchor), h - a.height) == Product(Share(r, b, anchor), b.height - h)
  {
    PairMedianIsHeavier(a, b);
    FusedOfPair(r, a, b);
    ShareIsHuber(r, a, anchor);
    ShareIsHuber(r, b, anchor);
    Balance(Share(r, a, anchor), Share(r, b, anchor), a.height, b.height);
  }
}
