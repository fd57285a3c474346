/**
 When the tracker decides for a warning or a review, from the log of the tracks: exactly when an observation
 that nobody contends for completes what a warning or a review needs.
 */
module TrackerConfirms {
  import opened Prelude
  import opened ObstacleTracks
  import opened GreedyAssociation
  import opened ObstacleTracker
  import opened TrackerOrder
  import opened TrackerAssociation
  import opened TrackerEvidence
  import opened TrackerRuns
  import opened TrackerEligibility
  import Sorting

  // ---------------------------------------------------------------- what a log must show

  /** The latest observation is a validated hazard with a warning code. */
  predicate Hazard(o: Observation) {
    o.hazardGeometry && o.warningEligible && (o.warningCode == 17 || o.warningCode == 18) && o.sourceValidated
  }

  /** A dense observation, or enough sparse ones in a row; and apart from the cargo, now or before, or of known origin. */
  ghost predicate Supported(log: seq<Accepted>, c: Config, g: Geometry)
    requires log != []
  {
    && (Last(log).obs.pointCount >= c.minimumPoints || Length(SparseSeen, log, c, g) >= c.confirmFrames)
    && (Last(log).obs.distance >= c.embeddedDistance || Held(Separation, log, c, g) || Trusted(Origin(log, c, g)))
  }

  ghost predicate Proven(log: seq<Accepted>, c: Config, g: Geometry) {
    Held(FarHistoryMark, log, c, g) || Held(Certificate, log, c, g)
  }

  /** What a formal warning needs: enough validated frames, and far history, large geometry and rest where they are required. */
  ghost predicate WarningShown(log: seq<Accepted>, policy: Policy, c: Config, g: Geometry) {
    && log != [] && Hazard(Last(log).obs) && Supported(log, c, g)
    && Length(Validated, log, c, g) >= c.confirmFrames
    && (c.requireFarHistory ==> Proven(log, c, g))
    && (policy.requireLargeGeometry ==> Length(Large, log, c, g) >= c.confirmFrames)
    && (policy.requireStaticCargo ==> ShowsStatic(log, c, g))
  }

  /** What a review needs: a near, low hazard whose required far history is missing. */
  ghost predicate ReviewShown(log: seq<Accepted>, c: Config, g: Geometry) {
    && log != [] && Hazard(Last(log).obs) && Supported(log, c, g)
    && c.requireFarHistory && !Proven(log, c, g)
    && 0.0 <= Last(log).obs.distance <= c.level2Distance
    && Last(log).obs.clearance.Some? && Last(log).obs.clearance.value < 0.80
  }

  /** The track is as its latest observation left it in this cycle. */
  ghost predicate Current(t: Track, log: seq<Accepted>, c: Config)
    requires log != []
  {
    var o := Last(log).obs;
    && t.current.observed && t.current.sourceValidated == o.sourceValidated && !t.association.ambiguous
    && (t.current.warningEligible <==> o.hazardGeometry && o.warningEligible && (o.warningCode == 17 || o.warningCode == 18))
    && (t.current.embedded <==> o.distance < c.embeddedDistance)
  }

  lemma WarningIsShown(t: Track, log: seq<Accepted>, policy: Policy, c: Config, g: Geometry)
    requires Shows(t, log, c, g) && Current(t, log, c) && Last(log).obs.pointCount >= 5
    ensures FormalWarning(t, policy, c) <==> WarningShown(log, policy, c, g)
  {}

  lemma ReviewIsShown(t: Track, log: seq<Accepted>, c: Config, g: Geometry)
    requires Shows(t, log, c, g) && Current(t, log, c) && Last(log).obs.pointCount >= 5
    ensures ReviewWarning(t, c) <==> ReviewShown(log, c, g)
  {}

  // ---------------------------------------------------------------- the observations of a cycle

  lemma {:induction false} CollectedFrom<T>(s: seq<T>, keep: T -> bool, change: T -> T, x: T) returns (y: T)
    requires x in Sorting.Collected(s, keep, change)
    ensures y in s && keep(y) && x == change(y)
  {
    var front := s[..|s| - 1];
    if x in Sorting.Collected(front, keep, change) {
      y := CollectedFrom(front, keep, change, x);
    } else {
      y := s[|s| - 1];
    }
  }

  /** Every observation a cycle works on is a valid one of the frame, with its cells put in order. */
  lemma ObservationIsValid(observations: seq<Observation>, c: Config, k: nat) returns (o: Observation)
    requires k < |Canonical(observations, c)|
    ensures o in observations && ValidObservation(o, c) && Canonical(observations, c)[k] == o.(cells := CanonicalCells(o.cells))
    ensures ValidObservation(Canonical(observations, c)[k], c)
  {
    Sorting.SameMembers(Canonical(observations, c), Prepared(observations, c));
    assert Canonical(observations, c)[k] in Canonical(observations, c);
    o := CollectedFrom(observations, Keeps(c), Canonicalise(), Canonical(observations, c)[k]);
  }

  lemma {:induction false} CollectedHas<T>(s: seq<T>, keep: T -> bool, change: T -> T, y: T)
    requires y in s && keep(y)
    ensures change(y) in Sorting.Collected(s, keep, change)
  {
    if y in s[..|s| - 1] {
      CollectedHas(s[..|s| - 1], keep, change, y);
    }
  }

  /** An observation the tracker works on: measured soundly, with points enough, and coded as its distance demands. */
  predicate Admissible(o: Observation, c: Config) {
    && o.pointCount >= 5 && o.top >= o.bottom && 0.0 <= o.continuity <= 1.0 && o.uncertainty >= 0.0 && o.distance >= 0.0
    && (o.hazardGeometry ==> o.clearance.Some?)
    && if o.warningEligible then
         && o.hazardGeometry && !o.entirelyAbove
         && ((o.warningCode == 17 && o.distance <= c.level1Distance)
             || (o.warningCode == 18 && c.level1Distance < o.distance <= c.level2Distance))
       else
         o.warningCode == 14 && o.distance <= c.acquisitionDistance && (o.hazardGeometry ==> o.distance > c.level2Distance)
  }

  lemma AdmissibleExactly(o: Observation, c: Config)
    ensures ValidObservation(o, c) <==> Admissible(o, c)
  {}

  /** A cycle works on exactly the admissible observations of the frame, each with its cells put in order. */
  lemma CanonicalExactly(observations: seq<Observation>, c: Config, x: Observation)
    ensures x in Canonical(observations, c) <==>
              exists o :: o in observations && Admissible(o, c) && x == o.(cells := CanonicalCells(o.cells))
  {
    Sorting.SameMembers(Canonical(observations, c), Prepared(observations, c));
    if x in Canonical(observations, c) {
      var o := CollectedFrom(observations, Keeps(c), Canonicalise(), x);
      AdmissibleExactly(o, c);
    }
    if o :| o in observations && Admissible(o, c) && x == o.(cells := CanonicalCells(o.cells)) {
      AdmissibleExactly(o, c);
      CollectedHas(observations, Keeps(c), Canonicalise(), o);
    }
  }

  lemma PrependCell(x: int, s: seq<int>)
    requires Ascending(s) && forall y :: y in CellSet(s) ==> x < y
    ensures Ascending([x] + s)
  {
    forall i | 0 <= i < |s| ensures x < s[i] {
      assert s[i] in CellSet(s);
    }
  }

  lemma SplitCells(x: int, s: seq<int>)
    ensures CellSet([x] + s) == {x} + CellSet(s)
  {}

  lemma TailCells(s: seq<int>)
    requires s != [] && Ascending(s)
    ensures s == [s[0]] + s[1..] && Ascending(s[1..]) && forall y :: y in CellSet(s[1..]) ==> s[0] < y
    ensures CellSet(s) == {s[0]} + CellSet(s[1..])
  {
    SplitCells(s[0], s[1..]);
  }

  lemma InsertBehind(a: int, x: int, rest: seq<int>, tail: seq<int>)
    requires Ascending(rest) && CellSet(rest) == {x} + CellSet(tail) && a < x && forall y :: y in CellSet(tail) ==> a < y
    ensures Ascending([a] + rest) && CellSet([a] + rest) == {x} + ({a} + CellSet(tail))
  {
    PrependCell(a, rest);
    SplitCells(a, rest);
  }

  lemma {:induction false} InsertedCell(x: int, s: seq<int>)
    requires Ascending(s)
    ensures Ascending(InsertCell(x, s)) && CellSet(InsertCell(x, s)) == {x} + CellSet(s)
  {
    if s == [] {
    } else if x < s[0] {
      TailCells(s);
      PrependCell(x, s);
      SplitCells(x, s);
    } else if x > s[0] {
      TailCells(s);
      InsertedCell(x, s[1..]);
      InsertBehind(s[0], x, InsertCell(x, s[1..]), s[1..]);
    }
  }

  /** Canonical cells are the same cells, ascending and without repeats. */
  lemma {:induction false} CanonicalCellsAscend(s: seq<int>)
    ensures Ascending(CanonicalCells(s)) && CellSet(CanonicalCells(s)) == CellSet(s)
  {
    if s != [] {
      CanonicalCellsAscend(s[1..]);
      InsertedCell(s[0], CanonicalCells(s[1..]));
      SplitCells(s[0], s[1..]);
      assert s == [s[0]] + s[1..];
    }
  }

  // ---------------------------------------------------------------- tracks that nothing advances

  lemma {:induction false} PurgedUnobserved(tracks: seq<Track>, stamp: real, c: Config, j: nat)
    requires j < |Purged(tracks, stamp, c)|
    ensures !Purged(tracks, stamp, c)[j].current.observed
  {
    var kept := |Purged(tracks, stamp, c)| - |Purged(tracks[1..], stamp, c)|;
    if j >= kept {
      PurgedUnobserved(tracks[1..], stamp, c, j - kept);
    }
  }

  /** Seen in this cycle, if at all, only as ambiguous. */
  predicate Idle(t: Track) { t.current.observed ==> !t.current.warningEligible }

  ghost predicate IdleAt(w: Scene, open: State, j: nat, n: nat)
    requires ValidConfig(w.config)
  {
    n <= |w.obs| && j < |TracksAt(w, open, n)| && Idle(TracksAt(w, open, n)[j])
  }

  lemma IdleNext(w: Scene, open: State, j: nat, q: nat, next: nat)
    requires ValidConfig(w.config) && q < |w.obs| && next == q + 1 && Fate(w, q) != Advanced(j) && IdleAt(w, open, j, q)
    ensures IdleAt(w, open, j, next)
  {
    var id := TracksNext(w, open, q, next);
  }

  /** A track that no observation advances ends the cycle idle. */
  lemma UnadvancedIsIdle(w: Scene, open: State, j: nat)
    requires ValidConfig(w.config) && j < |open.tracks| && !open.tracks[j].current.observed
    requires forall q: nat :: q < |w.obs| ==> Fate(w, q) != Advanced(j)
    ensures IdleAt(w, open, j, |w.obs|)
  {
    var p := (i: nat) => IdleAt(w, open, j, i);
    forall i: nat, next: nat | i < |w.obs| && next == i + 1 && p(i) ensures p(next) {
      IdleNext(w, open, j, i, next);
    }
    Climb(p, |w.obs|);
  }

  // ---------------------------------------------------------------- tracks that are opened

  /** The track is a new one made of observation k. */
  ghost predicate MadeOf(w: Scene, cycle: nat, k: nat, t: Track) {
    k < |w.obs| && exists id: nat, first: bool :: t == NewTrackFrom(id, w.obs[k], w.stamp, cycle, first, w.config)
  }

  /** Observation k opens a track, and t is it. */
  ghost predicate Opening(w: Scene, cycle: nat, k: nat, t: Track)
    requires ValidConfig(w.config)
  {
    k < |w.obs| && Fate(w, k) == Created && MadeOf(w, cycle, k, t)
  }

  ghost predicate Sourced(w: Scene, cycle: nat, n: nat, t: Track)
    requires ValidConfig(w.config)
  {
    exists k: nat :: k < n && Opening(w, cycle, k, t)
  }

  ghost predicate OpenedBy(w: Scene, cycle: nat, base: nat, tracks: seq<Track>, k: nat)
    requires ValidConfig(w.config)
  {
    exists j :: base <= j < |tracks| && Opening(w, cycle, k, tracks[j])
  }

  /** Behind the old tracks stand those the first n observations opened, and each observation that opened one has it there. */
  ghost predicate OpenedIn(w: Scene, cycle: nat, base: nat, n: nat, tracks: seq<Track>)
    requires ValidConfig(w.config)
  {
    && base <= |tracks|
    && (forall j :: base <= j < |tracks| ==> Sourced(w, cycle, n, tracks[j]))
    && (forall k: nat :: k < n && Fate(w, k) == Created ==> OpenedBy(w, cycle, base, tracks, k))
  }

  /** Observation q leaves the tracks behind the old ones alone, or adds one it made. */
  ghost predicate AddsOwn(w: Scene, cycle: nat, base: nat, q: nat, before: seq<Track>, after: seq<Track>)
    requires ValidConfig(w.config) && base <= |before|
  {
    && |after| == |before| + (if Fate(w, q) == Created then 1 else 0)
    && (forall j :: base <= j < |before| ==> after[j] == before[j])
    && (Fate(w, q) == Created ==> MadeOf(w, cycle, q, after[|before|]))
  }

  lemma OldTracksOnly(w: Scene, open: State, q: nat, next: nat)
    requires ValidConfig(w.config) && open.tracks == w.tracks && q < |w.obs| && next == q + 1 && |open.tracks| <= |TracksAt(w, open, q)|
    ensures AddsOwn(w, open.cycle, |open.tracks|, q, TracksAt(w, open, q), TracksAt(w, open, next))
  {
    var id := TracksNext(w, open, q, next);
    var before := TracksAt(w, open, q);
    var fate := Fate(w, q);
    if fate.Advanced? || fate.Frozen? {
      var i := MatchedPair(w, q, fate.track);
    } else if fate == Competing {
      forall j: nat | |open.tracks| <= j < |before| ensures !HasPair(Sorted(w), q, j) {
        PairIsLegal(w, q, j);
      }
    } else {
      assert TracksAt(w, open, next)[|before|] == NewTrackFrom(id, w.obs[q], w.stamp, open.cycle, before == [], w.config);
    }
  }

  lemma SourcedNext(w: Scene, cycle: nat, q: nat, next: nat, t: Track)
    requires ValidConfig(w.config) && next == q + 1 && (Sourced(w, cycle, q, t) || Opening(w, cycle, q, t))
    ensures Sourced(w, cycle, next, t)
  {
    if Sourced(w, cycle, q, t) {
      var k: nat :| k < q && Opening(w, cycle, k, t);
    }
  }

  lemma OpenedByNext(w: Scene, cycle: nat, base: nat, q: nat, before: seq<Track>, after: seq<Track>, k: nat)
    requires ValidConfig(w.config) && q < |w.obs| && OpenedIn(w, cycle, base, q, before) && AddsOwn(w, cycle, base, q, before, after)
    requires k <= q && Fate(w, k) == Created
    ensures OpenedBy(w, cycle, base, after, k)
  {
    if k < q {
      assert OpenedBy(w, cycle, base, before, k);
      var j :| base <= j < |before| && Opening(w, cycle, k, before[j]);
      assert after[j] == before[j];
    } else {
      assert Opening(w, cycle, q, after[|before|]);
    }
  }

  lemma OpenedInNext(w: Scene, cycle: nat, base: nat, q: nat, next: nat, before: seq<Track>, after: seq<Track>)
    requires ValidConfig(w.config) && q < |w.obs| && next == q + 1 && OpenedIn(w, cycle, base, q, before)
    requires AddsOwn(w, cycle, base, q, before, after)
    ensures OpenedIn(w, cycle, base, next, after)
  {
    forall j | base <= j < |after| ensures Sourced(w, cycle, next, after[j]) {
      assert j < |before| ==> after[j] == before[j];
      SourcedNext(w, cycle, q, next, after[j]);
    }
    forall k: nat | k < next && Fate(w, k) == Created ensures OpenedBy(w, cycle, base, after, k) {
      OpenedByNext(w, cycle, base, q, before, after, k);
    }
  }

  lemma OpenedTracks(w: Scene, open: State)
    requires ValidConfig(w.config) && open.tracks == w.tracks
    ensures OpenedIn(w, open.cycle, |open.tracks|, |w.obs|, TracksAt(w, open, |w.obs|))
  {
    var p := (i: nat) => i <= |w.obs| && OpenedIn(w, open.cycle, |open.tracks|, i, TracksAt(w, open, i));
    forall i: nat, next: nat | i < |w.obs| && next == i + 1 && p(i) ensures p(next) {
      OldTracksOnly(w, open, i, next);
      OpenedInNext(w, open.cycle, |open.tracks|, i, next, TracksAt(w, open, i), TracksAt(w, open, next));
    }
    Climb(p, |w.obs|);
  }

  // ---------------------------------------------------------------- the log of an advanced track

  function LogsAt(w: Scene, open: State, logs: Logs, i: nat): Logs
    requires ValidConfig(w.config) && i <= |w.obs|
  {
    LogUpTo(logs, open.tracks, open.nextId, Sorted(w), w.obs, i, w.stamp, open.cycle, w.config, w.geometry)
  }

  ghost predicate EndsWith(w: Scene, open: State, logs: Logs, k: nat, id: nat, i: nat)
    requires ValidConfig(w.config)
  {
    && k < i <= |w.obs|
    && var log := LogOf(LogsAt(w, open, logs, i), id);
       log != [] && Last(log) == Accepted(open.cycle, w.stamp, w.obs[k])
  }

  /** One observation that does not advance track j leaves its log alone; the one that does is appended. */
  lemma LogOneNext(logs: Logs, tracks: seq<Track>, nextId: nat, pairs: seq<Pair>, q: nat, e: Accepted, j: nat)
    requires IdsAscend(tracks, nextId) && j < |tracks|
    ensures LogOf(LogOne(logs, tracks, nextId, pairs, q, e), tracks[j].id) ==
              if OutcomeOf(pairs, q) == Advanced(j) then LogOf(logs, tracks[j].id) + [e] else LogOf(logs, tracks[j].id)
  {
    if OutcomeOf(pairs, q) != Advanced(j) {
      OtherLogKept(tracks, nextId, logs, pairs, q, e, j);
    }
  }

  function NextIdAt(w: Scene, open: State, i: nat): nat
    requires ValidConfig(w.config) && i <= |w.obs|
  {
    IntegrateUpTo(open.tracks, open.nextId, Sorted(w), w.obs, i, w.stamp, open.cycle, w.config, w.geometry).1
  }

  lemma IdsHold(w: Scene, open: State, i: nat)
    requires ValidConfig(w.config) && IdsAscend(open.tracks, open.nextId) && i <= |w.obs|
    ensures IdsAscend(TracksAt(w, open, i), NextIdAt(w, open, i)) && KeepsIds(open.tracks, TracksAt(w, open, i))
  {
    IntegrateUpToIds(open.tracks, open.nextId, Sorted(w), w.obs, i, w.stamp, open.cycle, w.config, w.geometry);
  }

  lemma LogsNext(w: Scene, open: State, logs: Logs, q: nat, next: nat)
    requires ValidConfig(w.config) && q < |w.obs| && next == q + 1
    ensures LogsAt(w, open, logs, next) ==
              LogOne(LogsAt(w, open, logs, q), TracksAt(w, open, q), NextIdAt(w, open, q), Sorted(w), q, Accepted(open.cycle, w.stamp, w.obs[q]))
  {}

  lemma LogNext(w: Scene, open: State, logs: Logs, q: nat, next: nat, j: nat)
    requires ValidConfig(w.config) && IdsAscend(open.tracks, open.nextId) && j < |open.tracks| && q < |w.obs| && next == q + 1
    ensures var before, after := LogOf(LogsAt(w, open, logs, q), open.tracks[j].id), LogOf(LogsAt(w, open, logs, next), open.tracks[j].id);
            after == if Fate(w, q) == Advanced(j) then before + [Accepted(open.cycle, w.stamp, w.obs[q])] else before
  {
    IdsHold(w, open, q);
    LogsNext(w, open, logs, q, next);
    LogOneNext(LogsAt(w, open, logs, q), TracksAt(w, open, q), NextIdAt(w, open, q), Sorted(w), q, Accepted(open.cycle, w.stamp, w.obs[q]), j);
  }

  lemma LogEnds(w: Scene, open: State, logs: Logs, k: nat, j: nat)
    requires Ordered(w) && IdsAscend(open.tracks, open.nextId) && j < |open.tracks| && k < |w.obs| && Fate(w, k) == Advanced(j)
    ensures EndsWith(w, open, logs, k, open.tracks[j].id, |w.obs|)
  {
    var p := (i: nat) => i <= k || EndsWith(w, open, logs, k, open.tracks[j].id, i);
    forall i: nat, next: nat | i < |w.obs| && next == i + 1 && p(i) ensures p(next) {
      LogNext(w, open, logs, i, next, j);
      if i > k && Fate(w, i) == Advanced(j) {
        MatchedOnce(w, k, i, j);
      }
    }
    Climb(p, |w.obs|);
  }

  /** The log of the track with this id after the frame. */
  function LogNow(run: Run, f: Frame, c: Config, g: Geometry, id: nat): seq<Accepted> { LogOf(LogsAfter(run + [f], c, g), id) }

  /** Observation k advances track j, and no later observation of the cycle contends for it. */
  ghost predicate Takes(run: Run, f: Frame, c: Config, g: Geometry, k: nat, j: nat)
    requires Opens(After(run, c, g), f.stamp, c)
  {
    var w := SceneOf(After(run, c, g), f, c, g);
    k < |w.obs| && j < |w.tracks| && Fate(w, k) == Advanced(j) && !Exposed(w, k, |w.obs|, j)
  }

  lemma {:induction false} TakenIsCurrent(run: Run, f: Frame, c: Config, g: Geometry, k: nat, j: nat)
    requires Opens(After(run, c, g), f.stamp, c) && Takes(run, f, c, g, k, j)
    ensures var w, s := SceneOf(After(run, c, g), f, c, g), Step(After(run, c, g), f, c, g).0;
            && j < |s.tracks| && s.tracks[j].id == w.tracks[j].id
            && var log := LogNow(run, f, c, g, w.tracks[j].id);
               Shows(s.tracks[j], log, c, g) && Current(s.tracks[j], log, c) && Last(log).obs == w.obs[k] && w.obs[k].pointCount >= 5
  {
    var w, open := SceneOf(After(run, c, g), f, c, g), Opened(After(run, c, g), f.stamp, c);
    RunIds(run, c, g);
    OpenedIds(After(run, c, g), f, c);
    AdvancedTrackEnds(run, f, c, g, k, j);
    var logs := if ArrivalOf(After(run, c, g), f.stamp, c).Restart? then map[] else LogsAfter(run, c, g);
    LogEnds(w, open, logs, k, j);
    assert (run + [f])[..|run|] == run;
    RunJustified(run + [f], c, g);
    var o := ObservationIsValid(f.observations, c, k);
  }

  // ---------------------------------------------------------------- the decision

  /** What is seen of a track in the cycle comes from the observation that took it, or opened it. */
  lemma {:induction false} SeenIsTaken(run: Run, f: Frame, c: Config, g: Geometry, j: nat)
    requires Opens(After(run, c, g), f.stamp, c)
    requires var s := Step(After(run, c, g), f, c, g).0;
             j < |s.tracks| && s.tracks[j].current.observed && s.tracks[j].current.warningEligible
    ensures var w, open, s := SceneOf(After(run, c, g), f, c, g), Opened(After(run, c, g), f.stamp, c), Step(After(run, c, g), f, c, g).0;
            if j < |w.tracks| then exists k: nat :: Takes(run, f, c, g, k, j) else exists k: nat :: Opening(w, open.cycle, k, s.tracks[j])
  {
    var w, open := SceneOf(After(run, c, g), f, c, g), Opened(After(run, c, g), f.stamp, c);
    if j < |w.tracks| {
      if k: nat :| k < |w.obs| && Fate(w, k) == Advanced(j) {
        AdvancedTrackEnds(run, f, c, g, k, j);
        assert Takes(run, f, c, g, k, j);
      } else {
        PurgedUnobserved(if ArrivalOf(After(run, c, g), f.stamp, c).Restart? then [] else After(run, c, g).tracks, f.stamp.value, c, j);
        UnadvancedIsIdle(w, open, j);
      }
    } else {
      OpenedTracks(w, open);
      assert Sourced(w, open.cycle, |w.obs|, TracksAt(w, open, |w.obs|)[j]);
    }
  }

  /** Some observation takes a track whose log then shows a warning. */
  ghost predicate WarningSeen(run: Run, f: Frame, c: Config, g: Geometry)
    requires Opens(After(run, c, g), f.stamp, c)
  {
    var w := SceneOf(After(run, c, g), f, c, g);
    exists k: nat, j: nat :: Takes(run, f, c, g, k, j) && WarningShown(LogNow(run, f, c, g, w.tracks[j].id), f.policy, c, g)
  }

  lemma {:induction false} TakenWarns(run: Run, f: Frame, c: Config, g: Geometry, k: nat, j: nat)
    requires Opens(After(run, c, g), f.stamp, c) && Takes(run, f, c, g, k, j)
    ensures var w, s := SceneOf(After(run, c, g), f, c, g), Step(After(run, c, g), f, c, g).0;
            && j < |s.tracks| && s.tracks[j].current.observed
            && (FormalWarning(s.tracks[j], f.policy, c) <==> WarningShown(LogNow(run, f, c, g, w.tracks[j].id), f.policy, c, g))
            && (ReviewWarning(s.tracks[j], c) <==> ReviewShown(LogNow(run, f, c, g, w.tracks[j].id), c, g))
  {
    TakenIsCurrent(run, f, c, g, k, j);
    var w, s := SceneOf(After(run, c, g), f, c, g), Step(After(run, c, g), f, c, g).0;
    WarningIsShown(s.tracks[j], LogNow(run, f, c, g, w.tracks[j].id), f.policy, c, g);
    ReviewIsShown(s.tracks[j], LogNow(run, f, c, g, w.tracks[j].id), c, g);
  }

  ghost predicate WarnsAt(tracks: seq<Track>, j: nat, policy: Policy, c: Config) {
    j < |tracks| && tracks[j].current.observed && FormalWarning(tracks[j], policy, c)
  }

  ghost predicate ReviewsAt(tracks: seq<Track>, j: nat, c: Config) {
    j < |tracks| && tracks[j].current.observed && ReviewWarning(tracks[j], c)
  }

  /** The decision confirms when some track warns, and asks for a review when none does but some track shows one. */
  lemma DecidesExactly(tracks: seq<Track>, obs: seq<Observation>, policy: Policy, c: Config)
    ensures var d := Decide(tracks, obs, policy, c);
            && (d.confirmed.Some? <==> exists j: nat :: WarnsAt(tracks, j, policy, c))
            && (d.review.Some? <==> d.confirmed.None? && exists j: nat :: ReviewsAt(tracks, j, c))
  {
    var ch := Choose(tracks, |tracks|, policy, c);
    ChosenAreWorst(tracks, policy, c);
    if ch.selected >= 0 {
      assert WarnsAt(tracks, ch.selected, policy, c);
    }
    if ch.review >= 0 {
      assert ReviewsAt(tracks, ch.review, c);
    }
  }

  /** The selected track is named with its code, and none that warns is more dangerous. */
  lemma DecidesWorst(tracks: seq<Track>, obs: seq<Observation>, policy: Policy, c: Config) returns (j: nat)
    requires Decide(tracks, obs, policy, c).confirmed.Some?
    ensures var d := Decide(tracks, obs, policy, c);
            && WarnsAt(tracks, j, policy, c) && d.confirmed == Some(tracks[j].id) && d.warningCode == tracks[j].body.warningCode
            && Leads(tracks, j, (t: Track) => FormalWarning(t, policy, c))
  {
    ChosenAreWorst(tracks, policy, c);
    j := Choose(tracks, |tracks|, policy, c).selected;
  }

  /** A track that was just opened never warns. */
  lemma OpeningWaits(w: Scene, cycle: nat, k: nat, t: Track, policy: Policy)
    requires ValidConfig(w.config) && Opening(w, cycle, k, t)
    ensures !FormalWarning(t, policy, w.config)
  {}

  /** So only a track that was there before can warn. */
  lemma {:induction false} OldTracksWarn(run: Run, f: Frame, c: Config, g: Geometry)
    requires Opens(After(run, c, g), f.stamp, c)
    ensures var w, s := SceneOf(After(run, c, g), f, c, g), Step(After(run, c, g), f, c, g).0;
            forall j :: |w.tracks| <= j < |s.tracks| ==> !FormalWarning(s.tracks[j], f.policy, c)
  {
    var w, open := SceneOf(After(run, c, g), f, c, g), Opened(After(run, c, g), f.stamp, c);
    var s := Step(After(run, c, g), f, c, g).0;
    OpenedTracks(w, open);
    forall j | |w.tracks| <= j < |s.tracks| ensures !FormalWarning(s.tracks[j], f.policy, c) {
      assert Sourced(w, open.cycle, |w.obs|, s.tracks[j]);
      var k: nat :| Opening(w, open.cycle, k, s.tracks[j]);
      OpeningWaits(w, open.cycle, k, s.tracks[j], f.policy);
    }
  }

  lemma {:induction false} WarningFound(run: Run, f: Frame, c: Config, g: Geometry, j: nat)
    requires Opens(After(run, c, g), f.stamp, c) && WarnsAt(Step(After(run, c, g), f, c, g).0.tracks, j, f.policy, c)
    ensures WarningSeen(run, f, c, g)
  {
    OldTracksWarn(run, f, c, g);
    SeenIsTaken(run, f, c, g, j);
    var k: nat :| Takes(run, f, c, g, k, j);
    TakenWarns(run, f, c, g, k, j);
  }

  /**
   On every run a frame confirms a hazard exactly when one of its observations takes a track, nobody contending for
   it, whose log then shows a warning.
   */
  lemma {:induction false} ConfirmedExactly(run: Run, f: Frame, c: Config, g: Geometry)
    requires Opens(After(run, c, g), f.stamp, c)
    ensures Step(After(run, c, g), f, c, g).1.confirmed.Some? <==> WarningSeen(run, f, c, g)
  {
    var w, s := SceneOf(After(run, c, g), f, c, g), Step(After(run, c, g), f, c, g).0;
    DecidesExactly(s.tracks, w.obs, f.policy, c);
    if j: nat :| WarnsAt(s.tracks, j, f.policy, c) {
      WarningFound(run, f, c, g, j);
    }
    if k: nat, j: nat :| Takes(run, f, c, g, k, j) && WarningShown(LogNow(run, f, c, g, w.tracks[j].id), f.policy, c, g) {
      TakenWarns(run, f, c, g, k, j);
      assert WarnsAt(s.tracks, j, f.policy, c);
    }
  }

  /** Some observation takes a track whose log then shows a review, or opens a track and shows one by itself. */
  ghost predicate ReviewSeen(run: Run, f: Frame, c: Config, g: Geometry)
    requires Opens(After(run, c, g), f.stamp, c)
  {
    var w, open := SceneOf(After(run, c, g), f, c, g), Opened(After(run, c, g), f.stamp, c);
    || (exists k: nat, j: nat :: Takes(run, f, c, g, k, j) && ReviewShown(LogNow(run, f, c, g, w.tracks[j].id), c, g))
    || (exists k: nat :: OpensReviewed(w, open.cycle, k))
  }

  ghost predicate OpensReviewed(w: Scene, cycle: nat, k: nat)
    requires ValidConfig(w.config)
  {
    k < |w.obs| && Fate(w, k) == Created && ReviewShown([Accepted(cycle, w.stamp, w.obs[k])], w.config, w.geometry)
  }

  lemma {:induction false} OpeningReviews(run: Run, f: Frame, c: Config, g: Geometry, k: nat, t: Track)
    requires Opens(After(run, c, g), f.stamp, c)
    requires var w, open := SceneOf(After(run, c, g), f, c, g), Opened(After(run, c, g), f.stamp, c); Opening(w, open.cycle, k, t)
    ensures var w, open := SceneOf(After(run, c, g), f, c, g), Opened(After(run, c, g), f.stamp, c);
            t.current.observed && !t.streaks.confirmed && (ReviewWarning(t, c) <==> OpensReviewed(w, open.cycle, k))
  {
    var w, open := SceneOf(After(run, c, g), f, c, g), Opened(After(run, c, g), f.stamp, c);
    var id: nat, first: bool :| t == NewTrackFrom(id, w.obs[k], w.stamp, open.cycle, first, c);
    CreatedShows(id, w.obs[k], w.stamp, open.cycle, first, c, g);
    var o := ObservationIsValid(f.observations, c, k);
    ReviewIsShown(t, [Accepted(open.cycle, w.stamp, w.obs[k])], c, g);
  }

  lemma {:induction false} ReviewFound(run: Run, f: Frame, c: Config, g: Geometry, j: nat)
    requires Opens(After(run, c, g), f.stamp, c)
    requires ReviewsAt(Step(After(run, c, g), f, c, g).0.tracks, j, c)
    ensures ReviewSeen(run, f, c, g)
  {
    var w, open := SceneOf(After(run, c, g), f, c, g), Opened(After(run, c, g), f.stamp, c);
    var s := Step(After(run, c, g), f, c, g).0;
    SeenIsTaken(run, f, c, g, j);
    if j < |w.tracks| {
      var k: nat :| Takes(run, f, c, g, k, j);
      TakenWarns(run, f, c, g, k, j);
    } else {
      var k: nat :| Opening(w, open.cycle, k, s.tracks[j]);
      OpeningReviews(run, f, c, g, k, s.tracks[j]);
    }
  }

  lemma ReviewedIn(run: Run, f: Frame, c: Config, g: Geometry, k: nat, tracks: seq<Track>) returns (j: nat)
    requires Opens(After(run, c, g), f.stamp, c)
    requires var w, open := SceneOf(After(run, c, g), f, c, g), Opened(After(run, c, g), f.stamp, c);
             OpensReviewed(w, open.cycle, k) && OpenedIn(w, open.cycle, |open.tracks|, |w.obs|, tracks)
    ensures j < |tracks| && tracks[j].current.observed && ReviewWarning(tracks[j], c)
  {
    var w, open := SceneOf(After(run, c, g), f, c, g), Opened(After(run, c, g), f.stamp, c);
    assert OpenedBy(w, open.cycle, |open.tracks|, tracks, k);
    j :| |open.tracks| <= j < |tracks| && Opening(w, open.cycle, k, tracks[j]);
    OpeningReviews(run, f, c, g, k, tracks[j]);
  }

  lemma OpenedIsFound(run: Run, f: Frame, c: Config, g: Geometry, k: nat) returns (j: nat)
    requires Opens(After(run, c, g), f.stamp, c)
    requires OpensReviewed(SceneOf(After(run, c, g), f, c, g), Opened(After(run, c, g), f.stamp, c).cycle, k)
    ensures var s := Step(After(run, c, g), f, c, g).0;
            j < |s.tracks| && s.tracks[j].current.observed && ReviewWarning(s.tracks[j], c)
  {
    OpenedTracks(SceneOf(After(run, c, g), f, c, g), Opened(After(run, c, g), f.stamp, c));
    j := ReviewedIn(run, f, c, g, k, Step(After(run, c, g), f, c, g).0.tracks);
  }

  lemma SeenIsFound(run: Run, f: Frame, c: Config, g: Geometry) returns (j: nat)
    requires Opens(After(run, c, g), f.stamp, c) && ReviewSeen(run, f, c, g)
    ensures var s := Step(After(run, c, g), f, c, g).0;
            j < |s.tracks| && s.tracks[j].current.observed && ReviewWarning(s.tracks[j], c)
  {
    var w, cycle := SceneOf(After(run, c, g), f, c, g), Opened(After(run, c, g), f.stamp, c).cycle;
    if k: nat, i: nat :| Takes(run, f, c, g, k, i) && ReviewShown(LogNow(run, f, c, g, w.tracks[i].id), c, g) {
      TakenWarns(run, f, c, g, k, i);
      j := i;
    } else {
      var k: nat :| OpensReviewed(w, cycle, k);
      j := OpenedIsFound(run, f, c, g, k);
    }
  }

  /** On every run a frame asks for a review exactly when it confirms no hazard and some observation shows a review. */
  lemma {:induction false} ReviewedExactly(run: Run, f: Frame, c: Config, g: Geometry)
    requires Opens(After(run, c, g), f.stamp, c)
    ensures Step(After(run, c, g), f, c, g).1.review.Some? <==>
              Step(After(run, c, g), f, c, g).1.confirmed.None? && ReviewSeen(run, f, c, g)
  {
    var w, s := SceneOf(After(run, c, g), f, c, g), Step(After(run, c, g), f, c, g).0;
    DecidesExactly(s.tracks, w.obs, f.policy, c);
    if j: nat :| ReviewsAt(s.tracks, j, c) {
      ReviewFound(run, f, c, g, j);
    }
    if ReviewSeen(run, f, c, g) {
      var j := SeenIsFound(run, f, c, g);
      assert ReviewsAt(s.tracks, j, c);
    }
  }

  lemma {:induction false} TakenFits(run: Run, f: Frame, c: Config, g: Geometry, k: nat, j: nat)
    requires Opens(After(run, c, g), f.stamp, c) && Takes(run, f, c, g, k, j)
    ensures var s := Step(After(run, c, g), f, c, g).0;
            && j < |s.tracks|
            && var t := s.tracks[j];
               t.current.warningEligible ==>
                 && (t.body.warningCode == 17 || t.body.warningCode == 18)
                 && (t.body.warningCode == 17 ==> t.body.distance <= c.level1Distance)
                 && (t.body.warningCode == 18 ==> c.level1Distance < t.body.distance <= c.level2Distance)
                 && t.body.hazardGeometry && t.body.clearance.Some? && !t.body.entirelyAbove
  {
    TakenIsCurrent(run, f, c, g, k, j);
    var o := ObservationIsValid(f.observations, c, k);
  }

  /**
   The code of every confirmed hazard fits its distance, its geometry is known and it is not above the cargo; the decision
   carries that code, and no observed track that passes the formal gate is more dangerous.
   */
  lemma ConfirmedFits(run: Run, f: Frame, c: Config, g: Geometry) returns (j: nat)
    requires Step(After(run, c, g), f, c, g).1.confirmed.Some?
    ensures var (s, d) := Step(After(run, c, g), f, c, g);
            && j < |s.tracks| && d.confirmed == Some(s.tracks[j].id) && d.warningCode == s.tracks[j].body.warningCode
            && (d.warningCode == 17 || d.warningCode == 18)
            && (d.warningCode == 17 ==> s.tracks[j].body.distance <= c.level1Distance)
            && (d.warningCode == 18 ==> c.level1Distance < s.tracks[j].body.distance <= c.level2Distance)
            && s.tracks[j].body.hazardGeometry && s.tracks[j].body.clearance.Some? && !s.tracks[j].body.entirelyAbove
            && Leads(s.tracks, j, (t: Track) => FormalWarning(t, f.policy, c))
  {
    var w, s := SceneOf(After(run, c, g), f, c, g), Step(After(run, c, g), f, c, g).0;
    j := DecidesWorst(s.tracks, w.obs, f.policy, c);
    OldTracksWarn(run, f, c, g);
    SeenIsTaken(run, f, c, g, j);
    var k: nat :| Takes(run, f, c, g, k, j);
    TakenFits(run, f, c, g, k, j);
  }
}
