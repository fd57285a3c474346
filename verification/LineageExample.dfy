/**
 Two runs of the component lineage that differ only in the order of the retained components: one
 reports the correspondence of a component that did not move, the other reports nothing.
 */
module LineageExample {
  import opened Prelude
  import opened ComponentLineage

  /** Steps of up to a metre, a margin of a tenth of it, and a norm that measures the x axis. */
  ghost predicate Metric(c: Config) {
    && c.maxStep == 1.0 && c.maxSizeStep >= 0.0 && c.maxGap == 0.5 && c.margin == 0.1
    && forall x: real :: c.norm(x, 0.0) == Abs(x)
  }

  const HERE := Pose(1.0, 0.0, 0.0, 0.0, 1.0, 0.0)

  function OnAxis(id: nat, stamp: real, x: real): Component {
    Component(id, 7, stamp, Vec(x, 0.0), Vec(1.0, 1.0), true)
  }

  /** A loaded frame of two components, seen from one pose. */
  function Two(index: nat, stamp: real, first: Component, second: Component): Frame {
    Frame(true, stamp, 1, index, 1, 1, HERE, true, GravityLoaded, [first, second])
  }

  /** The retained component at the origin, and one that lies equally far from both current components. */
  const STILL := OnAxis(3, 1.0, 0.0)
  const MIDDLE := OnAxis(4, 1.0, 0.9)

  function Now(): Frame { Two(2, 1.4, OnAxis(1, 1.4, 0.0), OnAxis(2, 1.4, 1.8)) }

  function Before(): Frame { Two(1, 1.0, STILL, MIDDLE) }

  function Behind(): Frame { Two(1, 1.0, MIDDLE, STILL) }

  /** A pair at the given distance. */
  function Apart(previous: nat, current: nat, distance: real): Pair {
    Pair(previous, current, distance, distance <= 1.0, distance <= 1.0, true)
  }

  lemma PairOnAxis(c: Config, past: Frame, now: Frame, i: nat, j: nat, x: real, y: real)
    requires Metric(c) && past.pose == HERE && now.pose == HERE && i < |past.components| && j < |now.components|
    requires past.components[i] == OnAxis(past.components[i].id, past.stamp, x) && now.components[j] == OnAxis(now.components[j].id, now.stamp, y)
    requires Abs(y - x) <= 1.0 || Abs(y - x) > 1.5
    ensures PairOf(c, past, now, i, j) == Apart(i, j, Abs(y - x))
  {
    assert c.norm(y - x, 0.0) == Abs(y - x);
  }

  lemma PairsOfTwo(c: Config, past: Frame, now: Frame)
    requires UsableConfig(c) && |past.components| == 2 && |now.components| == 2
    ensures Pairs(c, past, now) ==
              [PairOf(c, past, now, 0, 0), PairOf(c, past, now, 0, 1), PairOf(c, past, now, 1, 0), PairOf(c, past, now, 1, 1)]
  {
    assert Table(c, past, now, 0, 0) == [];
    assert Table(c, past, now, 0, 2) == [PairOf(c, past, now, 0, 0), PairOf(c, past, now, 0, 1)];
    assert Table(c, past, now, 1, 0) == Table(c, past, now, 0, 2);
  }

  lemma MotionHere(c: Config, past: Frame, now: Frame)
    requires Metric(c) && past.pose == HERE && now.pose == HERE && now.gravityValid && now.gravity == GravityLoaded
    ensures MotionOf(c, past, now) == LoadPresentUnobservable
  {
    assert c.norm(0.0, 0.0) == 0.0;
  }

  /** The table of each of the two frames against the current one. */
  lemma Tables(c: Config)
    requires Metric(c)
    ensures Pairs(c, Before(), Now()) == [Apart(0, 0, 0.0), Apart(0, 1, 1.8), Apart(1, 0, 0.9), Apart(1, 1, 0.9)]
    ensures Pairs(c, Behind(), Now()) == [Apart(0, 0, 0.9), Apart(0, 1, 0.9), Apart(1, 0, 0.0), Apart(1, 1, 1.8)]
  {
    PairsOfTwo(c, Before(), Now());
    PairOnAxis(c, Before(), Now(), 0, 0, 0.0, 0.0);
    PairOnAxis(c, Before(), Now(), 0, 1, 0.0, 1.8);
    PairOnAxis(c, Before(), Now(), 1, 0, 0.9, 0.0);
    PairOnAxis(c, Before(), Now(), 1, 1, 0.9, 1.8);
    PairsOfTwo(c, Behind(), Now());
    PairOnAxis(c, Behind(), Now(), 0, 0, 0.9, 0.0);
    PairOnAxis(c, Behind(), Now(), 0, 1, 0.9, 1.8);
    PairOnAxis(c, Behind(), Now(), 1, 0, 0.0, 0.0);
    PairOnAxis(c, Behind(), Now(), 1, 1, 0.0, 1.8);
  }

  lemma {:induction false} JudgedFour(c: Config, m: Motion, pairs: seq<Pair>, ids: seq<nat>)
    requires |pairs| == 4 && Indexed(pairs, ids)
    ensures Judged(c, m, pairs, ids, [], 4) ==
              Judge(c, m, pairs, ids, 3, Judge(c, m, pairs, ids, 2, Judge(c, m, pairs, ids, 1, Judge(c, m, pairs, ids, 0, Judged(c, m, pairs, ids, [], 0)))))
  {
    assert Judged(c, m, pairs, ids, [], 2) == Judge(c, m, pairs, ids, 1, Judged(c, m, pairs, ids, [], 1));
  }

  lemma {:induction false} NoneAmbiguous(c: Config, m: Motion, pairs: seq<Pair>, ids: seq<nat>)
    requires |ids| == 2 && Indexed(pairs, ids) && !Ambiguous(c, m, pairs, OfCurrent, 0) && !Ambiguous(c, m, pairs, OfCurrent, 1)
    ensures Judged(c, m, pairs, ids, [], 0) == Scan([], [])
  {
    assert AmbiguousIds(c, m, pairs, ids, 1) == [];
  }

  lemma {:induction false} LostBehind(c: Config, m: Motion, pairs: seq<Pair>, ids: seq<nat>)
    requires c.margin == 0.1 && m == LoadPresentUnobservable && ids == [1, 2]
    requires pairs == [Apart(0, 0, 0.9), Apart(0, 1, 0.9), Apart(1, 0, 0.0), Apart(1, 1, 1.8)]
    ensures Undisputed(c, m, pairs, OfCurrent, 0, 2) && Undisputed(c, m, pairs, OfPrevious, 1, 2)
    ensures Judged(c, m, pairs, ids, [], 4).matched == []
  {
    TieContests(c, m, pairs, 0, 1);
    LoneIsUnambiguous(c, m, pairs, 1, 1);
    UndisputedIsBest(c, m, pairs, OfCurrent, 0, 2);
    NoneAmbiguous(c, m, pairs, ids);
    JudgedFour(c, m, pairs, ids);
  }

  lemma {:induction false} KeptBefore(c: Config, m: Motion, pairs: seq<Pair>, ids: seq<nat>)
    requires c.margin == 0.1 && m == LoadPresentUnobservable && ids == [1, 2]
    requires pairs == [Apart(0, 0, 0.0), Apart(0, 1, 1.8), Apart(1, 0, 0.9), Apart(1, 1, 0.9)]
    ensures Undisputed(c, m, pairs, OfCurrent, 0, 0) && Undisputed(c, m, pairs, OfPrevious, 0, 0)
    ensures Judged(c, m, pairs, ids, [], 4).matched == [0]
  {
    TieContests(c, m, pairs, 2, 3);
    LoneIsUnambiguous(c, m, pairs, 1, 3);
    UndisputedIsBest(c, m, pairs, OfCurrent, 0, 0);
    UndisputedIsBest(c, m, pairs, OfPrevious, 0, 0);
    NoneAmbiguous(c, m, pairs, ids);
    JudgedFour(c, m, pairs, ids);
  }

  lemma {:induction false} BothKept(stamp: real, first: Component, second: Component)
    requires KeepComponent(first, stamp) && KeepComponent(second, stamp)
    ensures Kept([first, second], stamp) == [first, second]
  {
    assert [first, second][..1] == [first] && [first][..0] == [];
    assert Kept([first], stamp) == [first];
  }

  /** The second frame of a run is compared with the first one alone. */
  lemma {:induction false} SecondStep(c: Config, past: Frame, first: Component, second: Component)
    requires Metric(c) && past == Two(1, 1.0, first, second) && KeepComponent(first, 1.0) && KeepComponent(second, 1.0)
    ensures After(c, [past]) == [past] && Step(c, [past], Now()).1 == AtFrame(c, past, Now(), 1, Progress([], [])).matches
  {
    BothKept(1.0, first, second);
    assert [past][..0] == [];
    assert past.(components := Kept(past.components, past.stamp)) == past;
    var now := Now();
    BothKept(1.4, now.components[0], now.components[1]);
    assert now.(components := Kept(now.components, now.stamp)) == now;
    assert AfterFrames(c, [past], now, 0) == Progress([], []);
    assert AfterFrames(c, [past], now, 1) == AtFrame(c, past, now, 1, Progress([], []));
  }

  /** Pair k of the frame's table is undisputed at both ends. */
  ghost predicate Clear(c: Config, past: Frame, k: nat)
    requires UsableConfig(c)
  {
    var pairs, m := Pairs(c, past, Now()), MotionOf(c, past, Now());
    && k < |pairs|
    && Undisputed(c, m, pairs, OfCurrent, pairs[k].current, k) && Undisputed(c, m, pairs, OfPrevious, pairs[k].previous, k)
  }

  /**
   The order of the retained components decides. In both runs the component at the origin is undisputed at both
   ends: it is reported when it stands before the component that lies between, and lost when it stands behind it.
   */
  lemma {:induction false} RowOrderDecides(c: Config)
    requires Metric(c)
    ensures After(c, [Before()]) == [Before()] && Clear(c, Before(), 0)
    ensures Step(c, [Before()], Now()).1 == [Match(1, 1.0, STILL.id, 1, Apart(0, 0, 0.0))]
    ensures After(c, [Behind()]) == [Behind()] && Clear(c, Behind(), 2)
    ensures Step(c, [Behind()], Now()).1 == []
  {
    Tables(c);
    assert Ids(Now()) == [1, 2];
    MotionHere(c, Before(), Now());
    SecondStep(c, Before(), STILL, MIDDLE);
    KeptBefore(c, LoadPresentUnobservable, Pairs(c, Before(), Now()), Ids(Now()));
    MotionHere(c, Behind(), Now());
    SecondStep(c, Behind(), MIDDLE, STILL);
    LostBehind(c, LoadPresentUnobservable, Pairs(c, Behind(), Now()), Ids(Now()));
  }
}
