/**
 What an advanced track is at the end of its cycle: what its one observation made of it, unless a later
 observation of the cycle that stays without a match exposes it as ambiguous.
 */
module TrackerEligibility {
  import opened Prelude
  import opened ObstacleTracks
  import opened GreedyAssociation
  import opened ObstacleTracker
  import opened TrackerOrder
  import opened TrackerAssociation
  import opened TrackerRuns

  /** The tracks of an opened state after the first i observations. */
  function TracksAt(w: Scene, open: State, i: nat): seq<Track>
    requires ValidConfig(w.config) && i <= |w.obs|
  {
    IntegrateUpTo(open.tracks, open.nextId, Sorted(w), w.obs, i, w.stamp, open.cycle, w.config, w.geometry).0
  }

  /** What observation k makes of a track when their pair is reciprocal-unique. */
  function AdvancedBy(w: Scene, cycle: nat, k: nat, t: Track): Track
    requires ValidConfig(w.config) && k < |w.obs|
  {
    Advance(t, w.obs[k], MetricsOf(Sorted(w), k, w.obs[k], t), w.stamp, cycle, w.config, w.geometry)
  }

  /** Observation q has legal pairs, one of them with track j, and no match. */
  predicate Contends(w: Scene, q: nat, j: nat)
    requires ValidConfig(w.config)
  {
    Fate(w, q) == Competing && Legal(w, q, j)
  }

  /** One of the observations behind k and before n contends for track j. */
  ghost predicate Exposed(w: Scene, k: nat, n: nat, j: nat)
    requires ValidConfig(w.config)
  {
    exists q: nat :: k < q < n && Contends(w, q, j)
  }

  /** The track authorises nothing this cycle. */
  predicate Shut(t: Track) {
    t.current.observed && !t.current.warningEligible && !t.current.sourceValidated && t.association.ambiguous
  }

  ghost predicate EndsAs(advanced: Track, t: Track, exposed: bool) {
    SameEvidence(advanced, t) && if exposed then Shut(t) else t == advanced
  }

  // ---------------------------------------------------------------- one observation

  lemma PairIsLegal(w: Scene, q: nat, j: nat)
    requires ValidConfig(w.config)
    ensures HasPair(Sorted(w), q, j) <==> Legal(w, q, j)
  {
    if Legal(w, q, j) {
      var i := PositionOf(w, q, j);
      assert Sorted(w)[i] in Sorted(w);
    } else if HasPair(Sorted(w), q, j) {
      var p :| p in Sorted(w) && p.obs == q && p.track == j;
      SortedExactly(w, p);
    }
  }

  /** Exposing a track before its match leaves no trace in what the match makes of it. */
  lemma AdvancedFromEvidence(w: Scene, cycle: nat, k: nat, t: Track, u: Track)
    requires ValidConfig(w.config) && k < |w.obs| && SameEvidence(t, u)
    ensures AdvancedBy(w, cycle, k, t) == AdvancedBy(w, cycle, k, u)
  {}

  lemma KeptUntil(w: Scene, open: State, k: nat, j: nat)
    requires Ordered(w) && k < |w.obs| && j < |open.tracks| && Fate(w, k) == Advanced(j)
    ensures j < |TracksAt(w, open, k)| && SameEvidence(open.tracks[j], TracksAt(w, open, k)[j])
  {
    forall q: nat | q < k ensures OutcomeOf(Sorted(w), q) != Advanced(j) {
      if Fate(w, q) == Advanced(j) {
        MatchedOnce(w, q, k, j);
      }
    }
    UnadvancedKeeps(open.tracks, open.nextId, Sorted(w), w.obs, k, w.stamp, open.cycle, w.config, w.geometry, j);
  }

  /** The tracks after one more observation. */
  lemma TracksNext(w: Scene, open: State, q: nat, next: nat) returns (id: nat)
    requires ValidConfig(w.config) && q < |w.obs| && next == q + 1
    ensures TracksAt(w, open, next) ==
              Integrate(TracksAt(w, open, q), id, Sorted(w), q, w.obs[q], w.stamp, open.cycle, w.config, w.geometry)
  {
    id := IntegrateUpTo(open.tracks, open.nextId, Sorted(w), w.obs, q, w.stamp, open.cycle, w.config, w.geometry).1;
  }

  /** Observation k advances track j, whatever the observations before it exposed. */
  lemma AdvancedNow(w: Scene, open: State, k: nat, j: nat, next: nat)
    requires Ordered(w) && j < |open.tracks| && k < |w.obs| && next == k + 1 && Fate(w, k) == Advanced(j)
    ensures j < |TracksAt(w, open, next)| && TracksAt(w, open, next)[j] == AdvancedBy(w, open.cycle, k, open.tracks[j])
  {
    KeptUntil(w, open, k, j);
    AdvancedFromEvidence(w, open.cycle, k, open.tracks[j], TracksAt(w, open, k)[j]);
    var id := TracksNext(w, open, k, next);
  }

  lemma IntegrateOther(tracks: seq<Track>, nextId: nat, pairs: seq<Pair>, q: nat, o: Observation,
                       stamp: real, cycle: nat, c: Config, g: Geometry, j: nat)
    requires j < |tracks| && OutcomeOf(pairs, q) != Advanced(j) && OutcomeOf(pairs, q) != Frozen(j)
    ensures var later := Integrate(tracks, nextId, pairs, q, o, stamp, cycle, c, g);
            j < |later| && later[j] == if OutcomeOf(pairs, q) == Competing && HasPair(pairs, q, j) then Expose(tracks[j], o) else tracks[j]
  {}

  /** An observation that is not matched with track j exposes it if it contends for it, and leaves it alone otherwise. */
  lemma OtherObservation(w: Scene, open: State, q: nat, j: nat, next: nat)
    requires ValidConfig(w.config) && q < |w.obs| && next == q + 1 && j < |TracksAt(w, open, q)| && !Matched(w, q, j)
    ensures j < |TracksAt(w, open, next)|
    ensures TracksAt(w, open, next)[j] ==
              if Contends(w, q, j) then Expose(TracksAt(w, open, q)[j], w.obs[q]) else TracksAt(w, open, q)[j]
  {
    PairIsLegal(w, q, j);
    var id := TracksNext(w, open, q, next);
    IntegrateOther(TracksAt(w, open, q), id, Sorted(w), q, w.obs[q], w.stamp, open.cycle, w.config, w.geometry, j);
  }

  // ---------------------------------------------------------------- the rest of the cycle

  /** Track j after the first n observations. */
  ghost predicate EndsAt(w: Scene, open: State, k: nat, j: nat, n: nat, advanced: Track)
    requires ValidConfig(w.config)
  {
    n <= |w.obs| && j < |TracksAt(w, open, n)| && EndsAs(advanced, TracksAt(w, open, n)[j], Exposed(w, k, n, j))
  }

  lemma EndsNext(w: Scene, open: State, k: nat, j: nat, q: nat, next: nat, advanced: Track)
    requires Ordered(w) && k < q < |w.obs| && next == q + 1 && Fate(w, k) == Advanced(j)
    requires EndsAt(w, open, k, j, q, advanced)
    ensures EndsAt(w, open, k, j, next, advanced)
  {
    if Matched(w, q, j) {
      MatchedOnce(w, k, q, j);
    }
    OtherObservation(w, open, q, j, next);
    ExposedMore(w, k, q, next, j);
  }

  lemma EndsFirst(w: Scene, open: State, k: nat, j: nat, next: nat)
    requires Ordered(w) && j < |open.tracks| && k < |w.obs| && next == k + 1 && Fate(w, k) == Advanced(j)
    ensures EndsAt(w, open, k, j, next, AdvancedBy(w, open.cycle, k, open.tracks[j]))
  {
    AdvancedNow(w, open, k, j, next);
  }

  lemma EndsUpTo(w: Scene, open: State, k: nat, j: nat, n: nat)
    requires Ordered(w) && j < |open.tracks| && k < n <= |w.obs| && Fate(w, k) == Advanced(j)
    ensures EndsAt(w, open, k, j, n, AdvancedBy(w, open.cycle, k, open.tracks[j]))
  {
    var advanced := AdvancedBy(w, open.cycle, k, open.tracks[j]);
    var p := (i: nat) => i <= k || EndsAt(w, open, k, j, i, advanced);
    forall i: nat, next: nat | i < n && next == i + 1 && p(i) ensures p(next) {
      if i == k {
        EndsFirst(w, open, k, j, next);
      } else if i > k {
        EndsNext(w, open, k, j, i, next, advanced);
      }
    }
    Climb(p, n);
  }

  lemma ExposedMore(w: Scene, k: nat, n: nat, next: nat, j: nat)
    requires ValidConfig(w.config) && next == n + 1 && k < n
    ensures Exposed(w, k, next, j) <==> Exposed(w, k, n, j) || Contends(w, n, j)
  {}

  /** A track can be selected for a warning or for review exactly when the advanced one can and nothing exposed it. */
  ghost predicate Selectable(advanced: Track, t: Track, exposed: bool, policy: Policy, c: Config) {
    && (t.current.warningEligible <==> advanced.current.warningEligible && !exposed)
    && (FormalWarning(t, policy, c) <==> FormalWarning(advanced, policy, c) && !exposed)
    && (ReviewWarning(t, c) <==> ReviewWarning(advanced, c) && !exposed)
  }

  lemma EndsSelectable(advanced: Track, t: Track, exposed: bool, policy: Policy, c: Config)
    requires EndsAs(advanced, t, exposed)
    ensures Selectable(advanced, t, exposed, policy, c)
  {}

  /**
   On every run, a track advanced by observation k is, at the end of the cycle, exactly what that observation made
   of it if no later observation of the cycle contends for it; otherwise it keeps that evidence, and authorises
   nothing. So it stays eligible for a warning exactly when its observation is a hazard and no later one contends,
   and no later one contending is also what its selection for a warning or for review adds to the evidence.
   */
  lemma {:induction false} AdvancedTrackEnds(run: Run, f: Frame, c: Config, g: Geometry, k: nat, j: nat)
    requires Opens(After(run, c, g), f.stamp, c)
    requires var w := SceneOf(After(run, c, g), f, c, g); k < |w.obs| && Fate(w, k) == Advanced(j)
    ensures var w, open := SceneOf(After(run, c, g), f, c, g), Opened(After(run, c, g), f.stamp, c);
            var s := Step(After(run, c, g), f, c, g).0;
            && j < |open.tracks| && j < |s.tracks|
            && var advanced, exposed := AdvancedBy(w, open.cycle, k, open.tracks[j]), Exposed(w, k, |w.obs|, j);
               && EndsAs(advanced, s.tracks[j], exposed) && Selectable(advanced, s.tracks[j], exposed, f.policy, c)
               && (s.tracks[j].current.warningEligible <==> EligibleForWarning(w.obs[k]) && !exposed)
  {
    var w, open := SceneOf(After(run, c, g), f, c, g), Opened(After(run, c, g), f.stamp, c);
    RunIds(run, c, g);
    OpenedIds(After(run, c, g), f, c);
    var i := MatchedPair(w, k, j);
    EndsUpTo(w, open, k, j, |w.obs|);
    EndsSelectable(AdvancedBy(w, open.cycle, k, open.tracks[j]), TracksAt(w, open, |w.obs|)[j], Exposed(w, k, |w.obs|, j), f.policy, c);
  }
}
