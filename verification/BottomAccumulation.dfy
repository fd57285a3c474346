/**
 The short window of map-frame points behind the cargo bottom: deterministic downsampling, the bound
 on stored points, and the time window.
 */
module BottomAccumulation {
  import opened Prelude

  datatype Frame<P> = Frame(stamp: real, points: seq<P>)

  /** newest is the stamp of the last appended frame. */
  datatype Store<P> = Store(frames: seq<Frame<P>>, count: nat, newest: real)

  datatype Limits = Limits(points: nat, window: real, tolerance: real)

  // ---------------------------------------------------------------- downsampling

  lemma Quotient(y: nat, b: nat)
    requires b > 0
    ensures y == (y / b) * b + y % b && 0 <= y % b < b
  {}

  lemma SmallerProduct(p: nat, q: nat, b: nat)
    requires p < q
    ensures p * b + b <= q * b
  {
    var d: nat := q - p - 1;
    assert (p + 1 + d) * b == p * b + b + d * b;
    assert d * b >= 0;
  }

  lemma QuotientAtLeast(y: nat, q: nat, b: nat)
    requires b > 0 && y >= q * b
    ensures y / b >= q
  {
    Quotient(y, b);
    var p := y / b;
    if p < q {
      SmallerProduct(p, q, b);
    }
  }

  lemma QuotientAtMost(y: nat, q: nat, b: nat)
    requires b > 0 && y <= q * b
    ensures y / b <= q
  {
    Quotient(y, b);
    var p := y / b;
    if q < p {
      SmallerProduct(q, p, b);
    }
  }

  /** i steps of a/b, rounded down. */
  function Scaled(i: nat, a: nat, b: nat): nat
    requires b > 0
  {
    i * a / b
  }

  lemma ScaledStep(i: nat, a: nat, b: nat)
    requires a >= b > 0
    ensures Scaled(i + 1, a, b) >= Scaled(i, a, b) + 1
  {
    var q := i * a / b;
    Quotient(i * a, b);
    assert (i + 1) * a == i * a + a;
    assert (q + 1) * b == q * b + b;
    QuotientAtLeast((i + 1) * a, q + 1, b);
  }

  lemma ScaledEnds(i: nat, a: nat, b: nat)
    requires b > 0 && i <= b
    ensures Scaled(i, a, b) <= a && Scaled(0, a, b) == 0 && Scaled(b, a, b) == a
  {
    if i < b {
      SmallerProduct(i, b, a);
    }
    QuotientAtMost(i * a, a, b);
    QuotientAtMost(b * a, a, b);
    QuotientAtLeast(b * a, a, b);
    QuotientAtMost(0, 0, b);
  }

  /** The position of the i-th kept point of n when limit points are kept. */
  function SampleIndex(i: nat, n: nat, limit: nat): (index: nat)
    requires 2 <= limit < n && i < limit
    ensures index < n
  {
    ScaledEnds(i, n - 1, limit - 1);
    Scaled(i, n - 1, limit - 1)
  }

  lemma {:induction false} ScaledRises(i: nat, j: nat, a: nat, b: nat)
    requires a >= b > 0 && i < j
    ensures Scaled(i, a, b) < Scaled(j, a, b)
    decreases j
  {
    ScaledStep(j - 1, a, b);
    if i < j - 1 {
      ScaledRises(i, j - 1, a, b);
    }
  }

  /** Kept positions strictly increase, start at the first point and end at the last. */
  lemma SampleIndicesSpread(i: nat, j: nat, n: nat, limit: nat)
    requires 2 <= limit < n && i < j < limit
    ensures SampleIndex(i, n, limit) < SampleIndex(j, n, limit)
    ensures SampleIndex(0, n, limit) == 0 && SampleIndex(limit - 1, n, limit) == n - 1
  {
    ScaledEnds(0, n - 1, limit - 1);
    ScaledRises(i, j, n - 1, limit - 1);
  }

  function Sampled<P>(points: seq<P>, limit: nat): (kept: seq<P>)
    ensures |kept| == if |points| <= limit then |points| else limit
  {
    if |points| <= limit then points
    else if limit == 0 then []
    else if limit == 1 then [points[0]]
    else seq(limit, i requires 0 <= i < limit => points[SampleIndex(i, |points|, limit)])
  }

  method LimitPoints<P>(points: seq<P>, limit: nat) returns (kept: seq<P>)
    ensures kept == Sampled(points, limit)
  {
    if |points| <= limit {
      return points;
    }
    if limit == 0 {
      return [];
    }
    if limit == 1 {
      return [points[0]];
    }
    kept := [];
    for i := 0 to limit
      invariant |kept| == i
      invariant forall k :: 0 <= k < i ==> kept[k] == points[SampleIndex(k, |points|, limit)]
    {
      kept := kept + [points[SampleIndex(i, |points|, limit)]];
    }
  }

  /** With a limit of two or more the kept points are exactly limit points in source order, ends included. */
  lemma SampledSpread<P>(points: seq<P>, limit: nat)
    requires 2 <= limit < |points|
    ensures |Sampled(points, limit)| == limit
    ensures forall k: nat :: k < limit ==> Sampled(points, limit)[k] == points[SampleIndex(k, |points|, limit)]
    ensures forall i: nat, j: nat :: i < j < limit ==> SampleIndex(i, |points|, limit) < SampleIndex(j, |points|, limit)
    ensures Sampled(points, limit)[0] == points[0]
    ensures Sampled(points, limit)[limit - 1] == points[|points| - 1]
  {
    forall i: nat, j: nat | i < j < limit ensures SampleIndex(i, |points|, limit) < SampleIndex(j, |points|, limit) {
      SampleIndicesSpread(i, j, |points|, limit);
    }
    SampleIndicesSpread(0, limit - 1, |points|, limit);
  }

  // ---------------------------------------------------------------- the window of frames

  function Total<P>(frames: seq<Frame<P>>): nat {
    if |frames| == 0 then 0 else |frames[0].points| + Total(frames[1..])
  }

  lemma {:induction false} TotalAppend<P>(frames: seq<Frame<P>>, f: Frame<P>)
    ensures Total(frames + [f]) == Total(frames) + |f.points|
  {
    if |frames| > 0 {
      TotalAppend(frames[1..], f);
      assert (frames + [f])[1..] == frames[1..] + [f];
    } else {
      assert ([f])[1..] == [];
    }
  }

  function DropBefore<P>(frames: seq<Frame<P>>, cutoff: real): seq<Frame<P>> {
    if |frames| > 0 && frames[0].stamp < cutoff then DropBefore(frames[1..], cutoff) else frames
  }

  /** Oldest frames go until at most keep frames are left or the rest fits beside extra more points. */
  function DropExcess<P>(frames: seq<Frame<P>>, keep: nat, extra: nat, limit: nat): seq<Frame<P>> {
    if |frames| > keep && Total(frames) + extra > limit then DropExcess(frames[1..], keep, extra, limit) else frames
  }

  function CapFirst<P>(frames: seq<Frame<P>>, limit: nat): seq<Frame<P>> {
    if |frames| > 0 && |frames[0].points| > limit
    then frames[0 := frames[0].(points := Sampled(frames[0].points, limit))]
    else frames
  }

  function Enforced<P>(frames: seq<Frame<P>>, limit: nat): seq<Frame<P>> {
    CapFirst(DropExcess(frames, 1, 0, limit), limit)
  }

  function Purged<P>(s: Store<P>, l: Limits, stamp: real): Store<P> {
    var frames := Enforced(DropBefore(s.frames, stamp - l.window), l.points);
    s.(frames := frames, count := Total(frames))
  }

  /** points are already finite and in the map frame. */
  function Appended<P>(s: Store<P>, l: Limits, stamp: real, points: seq<P>): Store<P> {
    if |points| == 0 || (|s.frames| > 0 && stamp <= s.newest + l.tolerance) then s
    else
      var kept := Sampled(points, l.points);
      if |kept| == 0 then s
      else
        var frames := WithFrame(s.frames, Frame(stamp, kept), l.points);
        Store(frames, Total(frames), stamp)
  }

  ghost predicate StampsRise<P>(frames: seq<Frame<P>>) {
    forall i, j :: 0 <= i < j < |frames| ==> frames[i].stamp < frames[j].stamp
  }

  /** The count is exact and within the limit, stamps strictly rise, and newest is the last stamp. */
  ghost predicate Bounded<P>(s: Store<P>, l: Limits) {
    && s.count == Total(s.frames) <= l.points
    && StampsRise(s.frames)
    && (|s.frames| > 0 ==> s.newest == s.frames[|s.frames| - 1].stamp)
  }

  /** part still rises and, unless it is empty, still ends with whole's last frame. */
  ghost predicate Ending<P>(part: seq<Frame<P>>, whole: seq<Frame<P>>) {
    && StampsRise(part)
    && (|whole| == 0 ==> |part| == 0)
    && (|part| > 0 ==> part[|part| - 1].stamp == whole[|whole| - 1].stamp)
  }

  ghost predicate NotBefore<P>(frames: seq<Frame<P>>, cutoff: real) {
    forall k :: 0 <= k < |frames| ==> frames[k].stamp >= cutoff
  }

  lemma {:induction false} DropBeforeEnding<P>(frames: seq<Frame<P>>, cutoff: real)
    requires StampsRise(frames)
    ensures Ending(DropBefore(frames, cutoff), frames)
    ensures NotBefore(DropBefore(frames, cutoff), cutoff)
  {
    if |frames| > 0 && frames[0].stamp < cutoff {
      DropBeforeEnding(frames[1..], cutoff);
    }
  }

  /** Exactly the frames older than the cutoff go, from the front. */
  lemma {:induction false} DropBeforeExact<P>(frames: seq<Frame<P>>, cutoff: real)
    requires StampsRise(frames)
    ensures |DropBefore(frames, cutoff)| <= |frames|
    ensures DropBefore(frames, cutoff) == frames[|frames| - |DropBefore(frames, cutoff)|..]
    ensures forall k :: 0 <= k < |frames| ==> (frames[k].stamp < cutoff <==> k < |frames| - |DropBefore(frames, cutoff)|)
  {
    if |frames| > 0 && frames[0].stamp < cutoff {
      DropBeforeExact(frames[1..], cutoff);
    }
  }

  lemma {:induction false} DropExcessEnding<P>(frames: seq<Frame<P>>, keep: nat, extra: nat, limit: nat)
    requires StampsRise(frames)
    ensures Ending(DropExcess(frames, keep, extra, limit), frames)
    ensures |DropExcess(frames, keep, extra, limit)| > keep ==> Total(DropExcess(frames, keep, extra, limit)) + extra <= limit
    ensures |frames| >= keep ==> |DropExcess(frames, keep, extra, limit)| >= keep
  {
    if |frames| > keep && Total(frames) + extra > limit {
      DropExcessEnding(frames[1..], keep, extra, limit);
    }
  }

  lemma {:induction false} DropExcessNotBefore<P>(frames: seq<Frame<P>>, keep: nat, extra: nat, limit: nat, cutoff: real)
    requires NotBefore(frames, cutoff)
    ensures NotBefore(DropExcess(frames, keep, extra, limit), cutoff)
  {
    if |frames| > keep && Total(frames) + extra > limit {
      DropExcessNotBefore(frames[1..], keep, extra, limit, cutoff);
    }
  }

  lemma {:induction false} CapFirstEnding<P>(frames: seq<Frame<P>>, limit: nat)
    requires StampsRise(frames)
    requires |frames| > 1 ==> Total(frames) <= limit
    ensures Ending(CapFirst(frames, limit), frames)
    ensures |CapFirst(frames, limit)| == |frames|
    ensures Total(CapFirst(frames, limit)) <= limit
  {
    if |frames| == 1 {
      assert frames[1..] == [] && CapFirst(frames, limit)[1..] == [];
    }
  }

  /** Enforcing the limit keeps the newest frame and leaves at most limit points. */
  lemma EnforcedBounded<P>(frames: seq<Frame<P>>, limit: nat)
    requires StampsRise(frames)
    ensures Ending(Enforced(frames, limit), frames)
    ensures Total(Enforced(frames, limit)) <= limit
    ensures |frames| > 0 ==> |Enforced(frames, limit)| > 0
  {
    DropExcessEnding(frames, 1, 0, limit);
    CapFirstEnding(DropExcess(frames, 1, 0, limit), limit);
  }

  lemma EnforcedNotBefore<P>(frames: seq<Frame<P>>, limit: nat, cutoff: real)
    requires NotBefore(frames, cutoff)
    ensures NotBefore(Enforced(frames, limit), cutoff)
  {
    DropExcessNotBefore(frames, 1, 0, limit, cutoff);
  }

  /** Purging keeps the invariant, and what is left lies inside the window. */
  lemma PurgedBounded<P>(s: Store<P>, l: Limits, stamp: real)
    requires Bounded(s, l)
    ensures Bounded(Purged(s, l, stamp), l)
    ensures NotBefore(Purged(s, l, stamp).frames, stamp - l.window)
  {
    var left := DropBefore(s.frames, stamp - l.window);
    DropBeforeEnding(s.frames, stamp - l.window);
    EnforcedBounded(left, l.points);
    EnforcedNotBefore(left, l.points, stamp - l.window);
  }

  lemma GrownRises<P>(frames: seq<Frame<P>>, room: seq<Frame<P>>, f: Frame<P>)
    requires Ending(room, frames)
    requires |frames| > 0 ==> frames[|frames| - 1].stamp < f.stamp
    ensures StampsRise(room + [f])
  {
    var grown := room + [f];
    forall i, j | 0 <= i < j < |grown| ensures grown[i].stamp < grown[j].stamp {
      if j == |room| {
        assert room[i].stamp <= room[|room| - 1].stamp;
      }
    }
  }

  function WithFrame<P>(frames: seq<Frame<P>>, f: Frame<P>, limit: nat): seq<Frame<P>> {
    Enforced(DropExcess(frames, 0, |f.points|, limit) + [f], limit)
  }

  lemma WithFrameBounded<P>(s: Store<P>, l: Limits, f: Frame<P>)
    requires Bounded(s, l) && (|s.frames| == 0 || s.newest < f.stamp)
    ensures var frames := WithFrame(s.frames, f, l.points);
            Bounded(Store(frames, Total(frames), f.stamp), l)
  {
    var room := DropExcess(s.frames, 0, |f.points|, l.points);
    DropExcessEnding(s.frames, 0, |f.points|, l.points);
    GrownRises(s.frames, room, f);
    EnforcedBounded(room + [f], l.points);
  }

  lemma AppendedBounded<P>(s: Store<P>, l: Limits, stamp: real, points: seq<P>)
    requires Bounded(s, l) && l.tolerance >= 0.0
    ensures Bounded(Appended(s, l, stamp, points), l)
    ensures Appended(s, l, stamp, points).newest == s.newest || Appended(s, l, stamp, points).newest == stamp
  {
    if |s.frames| == 0 || stamp > s.newest {
      WithFrameBounded(s, l, Frame(stamp, Sampled(points, l.points)));
    }
  }

  // ---------------------------------------------------------------- the object

  class Accumulator<P> {
    const limits: Limits
    var frames: seq<Frame<P>>
    var count: nat
    var newest: real

    function Current(): Store<P>
      reads this
    {
      Store(frames, count, newest)
    }

    ghost predicate Valid()
      reads this
    {
      Bounded(Current(), limits)
    }

    constructor (l: Limits)
      ensures Valid() && limits == l && Current() == Store([], 0, 0.0)
    {
      limits := l;
      frames, count, newest := [], 0, 0.0;
    }

    method Clear()
      requires Valid()
      modifies this
      ensures Valid() && Current() == Store([], 0, 0.0)
    {
      frames, count, newest := [], 0, 0.0;
    }

    /** Popping subtracts the front frame's points; the count never goes below zero. */
    method EnforceLimit()
      requires count == Total(frames) && StampsRise(frames)
      modifies this
      ensures Current() == old(Store(Enforced(frames, limits.points), Total(Enforced(frames, limits.points)), newest))
    {
      while |frames| > 1 && count > limits.points
        invariant count == Total(frames) && newest == old(newest)
        invariant DropExcess(frames, 1, 0, limits.points) == old(DropExcess(frames, 1, 0, limits.points))
        decreases |frames|
      {
        count := count - |frames[0].points|;
        frames := frames[1..];
      }
      if |frames| > 0 && |frames[0].points| > limits.points {
        var kept := LimitPoints(frames[0].points, limits.points);
        frames := frames[0 := frames[0].(points := kept)];
      }
      count := 0;
      ghost var all := frames;
      for k := 0 to |frames|
        invariant frames == all && newest == old(newest)
        invariant count == Total(frames[..k])
      {
        assert frames[..k + 1] == frames[..k] + [frames[k]];
        TotalAppend(frames[..k], frames[k]);
        count := count + |frames[k].points|;
      }
      assert frames[..|frames|] == frames;
    }

    method Purge(stamp: real)
      requires Valid()
      modifies this
      ensures Valid() && Current() == Purged(old(Current()), limits, stamp)
      ensures NotBefore(frames, stamp - limits.window)
    {
      PurgedBounded(Current(), limits, stamp);
      var cutoff := stamp - limits.window;
      DropBeforeEnding(frames, cutoff);
      while |frames| > 0 && frames[0].stamp < cutoff
        invariant count == Total(frames) && newest == old(newest) && StampsRise(frames)
        invariant DropBefore(frames, cutoff) == old(DropBefore(frames, cutoff))
        decreases |frames|
      {
        count := count - |frames[0].points|;
        frames := frames[1..];
      }
      EnforceLimit();
    }

    method MapFinite<Q>(points: seq<Option<Q>>, toMap: Q -> P) returns (mapped: seq<P>)
      ensures mapped == MapPoints(points, toMap)
    {
      mapped := [];
      for k := 0 to |points|
        invariant mapped == MapPoints(points[..k], toMap)
      {
        MapPointsAppend(points[..k], points[k], toMap);
        assert points[..k + 1] == points[..k] + [points[k]];
        if points[k].Some? {
          mapped := mapped + [toMap(points[k].value)];
        }
      }
      assert points[..|points|] == points;
    }

    /** points holds None where a point is not finite; toMap is the pose of this frame. */
    method Append<Q>(stamp: real, points: seq<Option<Q>>, toMap: Q -> P)
      requires Valid() && limits.tolerance >= 0.0
      modifies this
      ensures Valid() && Current() == Appended(old(Current()), limits, stamp, MapPoints(points, toMap))
    {
      var mapped := MapFinite(points, toMap);
      AppendedBounded(Current(), limits, stamp, mapped);
      if |frames| > 0 && stamp <= newest + limits.tolerance {
        return;
      }
      var kept := LimitPoints(mapped, limits.points);
      if |kept| > 0 {
        AddFrame(Frame(stamp, kept));
      }
    }

    method AddFrame(f: Frame<P>)
      requires Valid() && 0 < |f.points| <= limits.points
      requires |frames| == 0 || f.stamp > newest
      modifies this
      ensures var kept := WithFrame(old(frames), f, limits.points);
              Current() == Store(kept, Total(kept), f.stamp)
    {
      DropExcessEnding(frames, 0, |f.points|, limits.points);
      GrownRises(frames, DropExcess(frames, 0, |f.points|, limits.points), f);
      while |frames| > 0 && count + |f.points| > limits.points
        invariant count == Total(frames)
        invariant DropExcess(frames, 0, |f.points|, limits.points) == old(DropExcess(frames, 0, |f.points|, limits.points))
        decreases |frames|
      {
        count := count - |frames[0].points|;
        frames := frames[1..];
      }
      TotalAppend(frames, f);
      frames := frames + [f];
      count := count + |f.points|;
      newest := f.stamp;
      EnforceLimit();
    }
  }

  function MapPoints<Q, P>(points: seq<Option<Q>>, toMap: Q -> P): seq<P> {
    if |points| == 0 then []
    else
      var rest := MapPoints(points[..|points| - 1], toMap);
      var last := points[|points| - 1];
      if last.Some? then rest + [toMap(last.value)] else rest
  }

  lemma {:induction false} MapPointsAppend<Q, P>(points: seq<Option<Q>>, p: Option<Q>, toMap: Q -> P)
    ensures MapPoints(points + [p], toMap) == if p.Some? then MapPoints(points, toMap) + [toMap(p.value)] else MapPoints(points, toMap)
  {
    assert (points + [p])[..|points|] == points;
  }
}
