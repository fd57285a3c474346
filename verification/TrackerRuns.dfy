/** What ambiguity freezes, and what a confirmed hazard has behind it, on every run of the tracker. */
module TrackerRuns {
  import opened Prelude
  import opened ObstacleTracks
  import opened GreedyAssociation
  import opened ObstacleTracker
  import opened TrackerOrder
  import opened TrackerEvidence

  // ---------------------------------------------------------------- frozen tracks

  lemma IntegrateKeeps(tracks: seq<Track>, nextId: nat, pairs: seq<Pair>, k: nat, o: Observation,
                       stamp: real, cycle: nat, c: Config, g: Geometry, j: nat)
    requires j < |tracks| && OutcomeOf(pairs, k) != Advanced(j)
    ensures var later := Integrate(tracks, nextId, pairs, k, o, stamp, cycle, c, g);
            && j < |later| && SameEvidence(tracks[j], later[j])
            && (OutcomeOf(pairs, k) == Frozen(j) || !tracks[j].current.warningEligible ==> !later[j].current.warningEligible)
  {
  }

  /** After the first k observations track j has its old evidence, and is not warning-eligible if one of them froze it. */
  ghost predicate KeptAt(tracks: seq<Track>, nextId: nat, pairs: seq<Pair>, obs: seq<Observation>, k: nat,
                         stamp: real, cycle: nat, c: Config, g: Geometry, j: nat)
    requires k <= |obs| && j < |tracks|
  {
    var later := IntegrateUpTo(tracks, nextId, pairs, obs, k, stamp, cycle, c, g).0;
    && j < |later| && SameEvidence(tracks[j], later[j])
    && ((exists q: nat :: q < k && OutcomeOf(pairs, q) == Frozen(j)) ==> !later[j].current.warningEligible)
  }

  lemma KeptNext(tracks: seq<Track>, nextId: nat, pairs: seq<Pair>, obs: seq<Observation>, k: nat,
                 stamp: real, cycle: nat, c: Config, g: Geometry, j: nat, next: nat)
    requires next == k + 1 && k < |obs| && j < |tracks| && OutcomeOf(pairs, k) != Advanced(j)
    requires KeptAt(tracks, nextId, pairs, obs, k, stamp, cycle, c, g, j)
    ensures KeptAt(tracks, nextId, pairs, obs, next, stamp, cycle, c, g, j)
  {
    var w := IntegrateUpTo(tracks, nextId, pairs, obs, k, stamp, cycle, c, g);
    var later := IntegrateUpTo(tracks, nextId, pairs, obs, next, stamp, cycle, c, g).0;
    assert later == Integrate(w.0, w.1, pairs, k, obs[k], stamp, cycle, c, g);
    IntegrateKeeps(w.0, w.1, pairs, k, obs[k], stamp, cycle, c, g, j);
  }

  /** A track that no observation advances keeps its evidence; one that was frozen is not warning-eligible. */
  lemma UnadvancedKeeps(tracks: seq<Track>, nextId: nat, pairs: seq<Pair>, obs: seq<Observation>, k: nat,
                        stamp: real, cycle: nat, c: Config, g: Geometry, j: nat)
    requires k <= |obs| && j < |tracks| && forall q: nat :: q < k ==> OutcomeOf(pairs, q) != Advanced(j)
    ensures KeptAt(tracks, nextId, pairs, obs, k, stamp, cycle, c, g, j)
  {
    var p := (i: nat) => i <= |obs| && KeptAt(tracks, nextId, pairs, obs, i, stamp, cycle, c, g, j);
    forall i: nat, next: nat | i < k && next == i + 1 && p(i) ensures p(next) {
      KeptNext(tracks, nextId, pairs, obs, i, stamp, cycle, c, g, j, next);
    }
    Climb(p, k);
  }

  /** A track is matched by one observation at most, so a frozen one is not also advanced. */
  lemma FrozenNotAdvanced(pairs: seq<Pair>, k: nat, q: nat, j: nat)
    requires OutcomeOf(pairs, k) == Frozen(j)
    ensures OutcomeOf(pairs, q) != Advanced(j)
  {
    var i, i' := TakenPair(pairs, k, |pairs|), TakenPair(pairs, q, |pairs|);
    if i' >= 0 && i != i' { OneToOne(pairs, i, i'); }
  }

  /**
   When the match of a track is not reciprocal-unique, the cycle leaves its predictor, stamps, streaks,
   provenance and far history as they were, and the track is selected neither for a warning nor for review.
   */
  lemma {:induction false} FrozenTrack(run: Run, f: Frame, c: Config, g: Geometry, k: nat, j: nat)
    requires Opens(After(run, c, g), f.stamp, c)
    requires var open, obs := Opened(After(run, c, g), f.stamp, c), Canonical(f.observations, c);
             && k < |obs| && j < |open.tracks|
             && OutcomeOf(SortedPairs(obs, open.tracks, open.lastStamp, c, g), k) == Frozen(j)
    ensures var open := Opened(After(run, c, g), f.stamp, c);
            var (s, d) := Step(After(run, c, g), f, c, g);
            && j < |s.tracks| && SameEvidence(open.tracks[j], s.tracks[j])
            && d.confirmed != Some(open.tracks[j].id) && d.review != Some(open.tracks[j].id)
  {
    var open, obs := Opened(After(run, c, g), f.stamp, c), Canonical(f.observations, c);
    var pairs := SortedPairs(obs, open.tracks, open.lastStamp, c, g);
    forall q: nat | q < |obs| ensures OutcomeOf(pairs, q) != Advanced(j) {
      FrozenNotAdvanced(pairs, k, q, j);
    }
    UnadvancedKeeps(open.tracks, open.nextId, pairs, obs, |obs|, open.lastStamp, open.cycle, c, g, j);
    RunIds(run, c, g);
    OpenedIds(After(run, c, g), f, c);
    IntegrateUpToIds(open.tracks, open.nextId, pairs, obs, |obs|, open.lastStamp, open.cycle, c, g);
    var (tracks, nextId) := IntegrateUpTo(open.tracks, open.nextId, pairs, obs, |obs|, open.lastStamp, open.cycle, c, g);
    NotEligibleNotChosen(tracks, nextId, obs, f.policy, c, j);
  }

  lemma NotEligibleNotChosen(tracks: seq<Track>, nextId: nat, obs: seq<Observation>, policy: Policy, c: Config, j: nat)
    requires IdsAscend(tracks, nextId) && j < |tracks| && !tracks[j].current.warningEligible
    ensures var d := Decide(tracks, obs, policy, c); d.confirmed != Some(tracks[j].id) && d.review != Some(tracks[j].id)
  {
    var ch := Choose(tracks, |tracks|, policy, c);
    assert ch.selected != j && ch.review != j;
    forall i | 0 <= i < |tracks| && i != j ensures tracks[i].id != tracks[j].id {
      assert i < j ==> tracks[i].id < tracks[j].id;
      assert j < i ==> tracks[j].id < tracks[i].id;
    }
  }

  // ---------------------------------------------------------------- the log of a track

  type Logs = map<nat, seq<Accepted>>

  function LogOf(logs: Logs, id: nat): seq<Accepted> { if id in logs then logs[id] else [] }

  function Extend(logs: Logs, id: nat, e: Accepted): Logs { logs[id := LogOf(logs, id) + [e]] }

  /** The logs after observation k: only creation and reciprocal-unique advance are recorded. */
  function LogOne(logs: Logs, tracks: seq<Track>, nextId: nat, pairs: seq<Pair>, k: nat, e: Accepted): Logs {
    match OutcomeOf(pairs, k)
    case Created => Extend(logs, nextId, e)
    case Advanced(j) => if j < |tracks| then Extend(logs, tracks[j].id, e) else logs
    case _ => logs
  }

  function LogUpTo(logs: Logs, tracks: seq<Track>, nextId: nat, pairs: seq<Pair>, obs: seq<Observation>, k: nat,
                   stamp: real, cycle: nat, c: Config, g: Geometry): Logs
    requires k <= |obs|
  {
    if k == 0 then logs
    else
      var (ts, id) := IntegrateUpTo(tracks, nextId, pairs, obs, k - 1, stamp, cycle, c, g);
      LogOne(LogUpTo(logs, tracks, nextId, pairs, obs, k - 1, stamp, cycle, c, g), ts, id, pairs, k - 1,
             Accepted(cycle, stamp, obs[k - 1]))
  }

  /** A rollback, which restarts the ids, starts the logs afresh. */
  function LogStep(logs: Logs, s: State, f: Frame, c: Config, g: Geometry): Logs {
    if !Opens(s, f.stamp, c) then logs
    else
      var open, obs := Opened(s, f.stamp, c), Canonical(f.observations, c);
      LogUpTo(if ArrivalOf(s, f.stamp, c).Restart? then map[] else logs, open.tracks, open.nextId,
              SortedPairs(obs, open.tracks, open.lastStamp, c, g), obs, |obs|, open.lastStamp, open.cycle, c, g)
  }

  function LogsAfter(run: Run, c: Config, g: Geometry): Logs {
    if run == [] then map[]
    else
      var front := run[..|run| - 1];
      LogStep(LogsAfter(front, c, g), After(front, c, g), run[|run| - 1], c, g)
  }

  // ---------------------------------------------------------------- evidence in the log

  /** Entries a to b are qualifying far observations in consecutive cycles. */
  ghost predicate FarRun(log: seq<Accepted>, a: int, b: int, c: Config) {
    && 0 <= a < b <= |log|
    && (forall i :: a <= i < b ==> FarSeen(log[i].obs, c))
    && (forall i :: a < i < b ==> log[i].cycle == log[i - 1].cycle + 1)
  }

  /** From entry a on, every entry was seen under this authority. */
  ghost predicate Under(log: seq<Accepted>, a: int, authority: Authority) {
    0 <= a && forall i :: a <= i < |log| ==> log[i].obs.authority == authority
  }

  /** A complete far history: enough consecutive qualifying observations, over the configured time, all under this authority. */
  ghost predicate FarEvidence(log: seq<Accepted>, a: int, b: int, authority: Authority, c: Config) {
    && FarRun(log, a, b, c) && Under(log, a, authority)
    && b - a >= c.farConfirmFrames
    && log[b - 1].stamp - log[a].stamp + STAMP_EPSILON >= c.farConfirmDuration
  }

  ghost predicate CertifiedAt(log: seq<Accepted>, a: int, authority: Authority) {
    0 <= a < |log| && log[a].obs.certifiedStatic && Under(log, a, authority)
  }

  ghost predicate HasFarEvidence(log: seq<Accepted>, authority: Authority, c: Config) {
    exists a, b :: FarEvidence(log, a, b, authority, c)
  }

  ghost predicate HasCertificate(log: seq<Accepted>, authority: Authority) {
    exists a :: CertifiedAt(log, a, authority)
  }

  /** The last count entries are source-validated observations in consecutive cycles under this authority. */
  ghost predicate ValidatedRun(log: seq<Accepted>, count: nat, authority: Authority) {
    && count <= |log| && Under(log, |log| - count, authority)
    && (forall i :: |log| - count <= i < |log| ==> log[i].obs.sourceValidated)
    && (forall i :: |log| - count < i < |log| ==> log[i].cycle == log[i - 1].cycle + 1)
  }

  lemma {:induction false} StretchUnder(log: seq<Accepted>)
    requires log != []
    ensures Under(log, Began(log), Last(log).obs.authority)
    decreases |log|
  {
    if Continued(log) {
      StretchUnder(Front(log));
    }
  }

  lemma {:induction false} StretchOf(log: seq<Accepted>, n: nat)
    requires log != [] && Began(log) < n <= |log|
    ensures Began(log[..n]) == Began(log)
    decreases |log|
  {
    if n < |log| {
      StretchOf(Front(log), n);
      assert Front(log)[..n] == log[..n];
    } else {
      assert log[..n] == log;
    }
  }

  /** A streak lies in the stretch of its authority. */
  lemma {:induction false} StreakInStretch(kind: Kind, log: seq<Accepted>, c: Config, g: Geometry)
    requires log != []
    ensures Length(kind, log, c, g) <= |log| - Began(log)
    decreases |log|
  {
    if |log| > 1 {
      StreakInStretch(kind, Front(log), c, g);
    }
  }

  /** What the entries of a streak are. */
  lemma StreakEntries(kind: Kind, log: seq<Accepted>, n: nat, c: Config, g: Geometry)
    requires Unbroken(kind, log, n, c, g)
    ensures kind == Far ==> forall i :: |log| - n <= i < |log| ==> FarSeen(log[i].obs, c)
    ensures kind == Validated ==> forall i :: |log| - n <= i < |log| ==> log[i].obs.sourceValidated
    ensures forall i :: |log| - n < i < |log| ==> log[i].cycle == log[i - 1].cycle + 1
  {
    forall i: nat | |log| - n <= i < |log|
      ensures (kind == Far ==> FarSeen(log[i].obs, c)) && (kind == Validated ==> log[i].obs.sourceValidated)
    {
      assert CountsAt(kind, log, i, c, g);
    }
    forall i: nat | |log| - n < i < |log| ensures log[i].cycle == log[i - 1].cycle + 1 {
      assert FollowsAt(log, i, c);
    }
  }

  lemma {:induction false} ValidatedIsRun(log: seq<Accepted>, c: Config, g: Geometry)
    requires log != []
    ensures ValidatedRun(log, Length(Validated, log, c, g), Last(log).obs.authority)
  {
    var n := Length(Validated, log, c, g);
    LengthIsLongest(Validated, log, n, c, g);
    StreakEntries(Validated, log, n, c, g);
    StreakInStretch(Validated, log, c, g);
    StretchUnder(log);
  }

  lemma HeldIsCertificate(log: seq<Accepted>, c: Config, g: Geometry)
    requires log != [] && Held(Certificate, log, c, g)
    ensures HasCertificate(log, Last(log).obs.authority)
  {
    StretchUnder(log);
    var n: nat :| Began(log) < n <= |log| && MadeAt(Certificate, log, n, c, g);
    assert CertifiedAt(log, n - 1, Last(log).obs.authority);
  }

  /** The streak that completed the far history, seen in the whole log. */
  lemma MadeByRun(log: seq<Accepted>, n: nat, c: Config, g: Geometry) returns (a: nat)
    requires log != [] && Began(log) < n <= |log| && MadeAt(FarHistoryMark, log, n, c, g)
    ensures Began(log) <= a < n && FarRun(log[..n], a, n, c) && n - a >= c.farConfirmFrames
    ensures log[..n][n - 1].stamp - log[..n][a].stamp + STAMP_EPSILON >= c.farConfirmDuration
  {
    var seen := log[..n];
    var count := Length(Far, seen, c, g);
    StretchOf(log, n);
    StreakInStretch(Far, seen, c, g);
    LengthIsLongest(Far, seen, count, c, g);
    StreakEntries(Far, seen, count, c, g);
    a := n - count;
  }

  lemma {:induction false} MadeIsEvidence(log: seq<Accepted>, n: nat, c: Config, g: Geometry)
    requires log != [] && Began(log) < n <= |log| && MadeAt(FarHistoryMark, log, n, c, g)
    ensures HasFarEvidence(log, Last(log).obs.authority, c)
  {
    StretchUnder(log);
    var a := MadeByRun(log, n, c, g);
    assert forall i :: 0 <= i < n ==> log[..n][i] == log[i];
    assert FarRun(log, a, n, c);
    assert FarEvidence(log, a, n, Last(log).obs.authority, c);
  }

  lemma HeldIsEvidence(log: seq<Accepted>, c: Config, g: Geometry)
    requires log != []
    ensures Held(FarHistoryMark, log, c, g) ==> HasFarEvidence(log, Last(log).obs.authority, c)
    ensures Held(Certificate, log, c, g) ==> HasCertificate(log, Last(log).obs.authority)
  {
    if Held(Certificate, log, c, g) {
      HeldIsCertificate(log, c, g);
    }
    if Held(FarHistoryMark, log, c, g) {
      var n: nat :| Began(log) < n <= |log| && MadeAt(FarHistoryMark, log, n, c, g);
      MadeIsEvidence(log, n, c, g);
    }
  }

  /** The track's evidence is exactly what its log shows, and the log is in order. */
  ghost predicate Justified(t: Track, log: seq<Accepted>, now: real, c: Config, g: Geometry) {
    Shows(t, log, c, g) && Timely(log) && forall i :: 0 <= i < |log| ==> log[i].stamp <= now
  }

  lemma AdvanceJustified(t: Track, log: seq<Accepted>, o: Observation, m: Metrics, stamp: real, cycle: nat, c: Config, g: Geometry)
    requires ValidConfig(c) && Justified(t, log, stamp, c, g) && m.anchorOverlap == CellOverlap(o.cells, t.body.anchorCells)
    ensures Justified(Advance(t, o, m, stamp, cycle, c, g), log + [Accepted(cycle, stamp, o)], stamp, c, g)
  {
    AdvanceShows(t, log, o, m, stamp, cycle, c, g);
  }

  lemma CreatedJustified(id: nat, o: Observation, stamp: real, cycle: nat, first: bool, c: Config, g: Geometry)
    requires ValidConfig(c)
    ensures Justified(NewTrackFrom(id, o, stamp, cycle, first, c), [Accepted(cycle, stamp, o)], stamp, c, g)
  {
    CreatedShows(id, o, stamp, cycle, first, c, g);
  }

  lemma SameEvidenceJustified(t: Track, u: Track, log: seq<Accepted>, now: real, c: Config, g: Geometry)
    requires SameEvidence(t, u) && Justified(t, log, now, c, g)
    ensures Justified(u, log, now, c, g)
  {
  }

  // ---------------------------------------------------------------- all tracks of a state

  ghost predicate AllJustified(tracks: seq<Track>, nextId: nat, logs: Logs, now: real, c: Config, g: Geometry) {
    && IdsAscend(tracks, nextId)
    && (forall id :: id in logs ==> id < nextId)
    && (forall j :: 0 <= j < |tracks| ==> Justified(tracks[j], LogOf(logs, tracks[j].id), now, c, g))
  }

  lemma LaterJustified(tracks: seq<Track>, nextId: nat, logs: Logs, now: real, later: real, c: Config, g: Geometry)
    requires AllJustified(tracks, nextId, logs, now, c, g) && now <= later
    ensures AllJustified(tracks, nextId, logs, later, c, g)
  {
  }

  lemma IntegrateJustified(tracks: seq<Track>, nextId: nat, logs: Logs, pairs: seq<Pair>, k: nat, o: Observation,
                           stamp: real, cycle: nat, c: Config, g: Geometry)
    requires AllJustified(tracks, nextId, logs, stamp, c, g) && ValidConfig(c)
    ensures AllJustified(Integrate(tracks, nextId, pairs, k, o, stamp, cycle, c, g), NextId(nextId, pairs, k),
                         LogOne(logs, tracks, nextId, pairs, k, Accepted(cycle, stamp, o)), stamp, c, g)
  {
    var e := Accepted(cycle, stamp, o);
    var later := Integrate(tracks, nextId, pairs, k, o, stamp, cycle, c, g);
    var logs' := LogOne(logs, tracks, nextId, pairs, k, e);
    IntegrateIds(tracks, nextId, pairs, k, o, stamp, cycle, c, g);
    forall j | 0 <= j < |later| ensures Justified(later[j], LogOf(logs', later[j].id), stamp, c, g) {
      if j == |tracks| {
        CreatedJustified(nextId, o, stamp, cycle, tracks == [], c, g);
        assert LogOf(logs, nextId) + [e] == [e];
      } else if OutcomeOf(pairs, k) == Advanced(j) {
        AdvanceJustified(tracks[j], LogOf(logs, tracks[j].id), o, MetricsOf(pairs, k, o, tracks[j]), stamp, cycle, c, g);
      } else {
        IntegrateKeeps(tracks, nextId, pairs, k, o, stamp, cycle, c, g, j);
        OtherLogKept(tracks, nextId, logs, pairs, k, e, j);
        SameEvidenceJustified(tracks[j], later[j], LogOf(logs, tracks[j].id), stamp, c, g);
      }
    }
  }

  lemma OtherLogKept(tracks: seq<Track>, nextId: nat, logs: Logs, pairs: seq<Pair>, k: nat, e: Accepted, j: nat)
    requires IdsAscend(tracks, nextId) && j < |tracks| && OutcomeOf(pairs, k) != Advanced(j)
    ensures LogOf(LogOne(logs, tracks, nextId, pairs, k, e), tracks[j].id) == LogOf(logs, tracks[j].id)
  {
    var out := OutcomeOf(pairs, k);
    if out.Advanced? && out.track < |tracks| {
      assert out.track < j ==> tracks[out.track].id < tracks[j].id;
      assert j < out.track ==> tracks[j].id < tracks[out.track].id;
    }
  }

  /** After the first k observations of a cycle every track's evidence is in its log. */
  ghost predicate JustifiedAt(tracks: seq<Track>, nextId: nat, logs: Logs, pairs: seq<Pair>, obs: seq<Observation>, k: nat,
                              stamp: real, cycle: nat, c: Config, g: Geometry)
    requires k <= |obs|
  {
    var w := IntegrateUpTo(tracks, nextId, pairs, obs, k, stamp, cycle, c, g);
    AllJustified(w.0, w.1, LogUpTo(logs, tracks, nextId, pairs, obs, k, stamp, cycle, c, g), stamp, c, g)
  }

  lemma JustifiedStart(tracks: seq<Track>, nextId: nat, logs: Logs, pairs: seq<Pair>, obs: seq<Observation>,
                       stamp: real, cycle: nat, c: Config, g: Geometry)
    requires AllJustified(tracks, nextId, logs, stamp, c, g)
    ensures JustifiedAt(tracks, nextId, logs, pairs, obs, 0, stamp, cycle, c, g)
  {}

  lemma JustifiedNext(tracks: seq<Track>, nextId: nat, logs: Logs, pairs: seq<Pair>, obs: seq<Observation>, k: nat,
                      stamp: real, cycle: nat, c: Config, g: Geometry, next: nat)
    requires next == k + 1 && k < |obs| && JustifiedAt(tracks, nextId, logs, pairs, obs, k, stamp, cycle, c, g) && ValidConfig(c)
    ensures JustifiedAt(tracks, nextId, logs, pairs, obs, next, stamp, cycle, c, g)
  {
    var w := IntegrateUpTo(tracks, nextId, pairs, obs, k, stamp, cycle, c, g);
    var w' := IntegrateUpTo(tracks, nextId, pairs, obs, next, stamp, cycle, c, g);
    var logs0 := LogUpTo(logs, tracks, nextId, pairs, obs, k, stamp, cycle, c, g);
    assert w'.0 == Integrate(w.0, w.1, pairs, k, obs[k], stamp, cycle, c, g) && w'.1 == NextId(w.1, pairs, k);
    IntegrateJustified(w.0, w.1, logs0, pairs, k, obs[k], stamp, cycle, c, g);
  }

  lemma IntegrateUpToJustified(tracks: seq<Track>, nextId: nat, logs: Logs, pairs: seq<Pair>, obs: seq<Observation>, k: nat,
                               stamp: real, cycle: nat, c: Config, g: Geometry)
    requires k <= |obs| && AllJustified(tracks, nextId, logs, stamp, c, g) && ValidConfig(c)
    ensures JustifiedAt(tracks, nextId, logs, pairs, obs, k, stamp, cycle, c, g)
  {
    var p := (i: nat) => i <= |obs| && JustifiedAt(tracks, nextId, logs, pairs, obs, i, stamp, cycle, c, g);
    JustifiedStart(tracks, nextId, logs, pairs, obs, stamp, cycle, c, g);
    forall i: nat, j: nat | i < k && j == i + 1 && p(i) ensures p(j) {
      JustifiedNext(tracks, nextId, logs, pairs, obs, i, stamp, cycle, c, g, j);
    }
    Climb(p, k);
  }

  /** Every track that is kept is one of the old ones, with its evidence. */
  lemma {:induction false} PurgedKeeps(tracks: seq<Track>, stamp: real, c: Config, j: nat) returns (i: nat)
    requires j < |Purged(tracks, stamp, c)|
    ensures i < |tracks| && SameEvidence(tracks[i], Purged(tracks, stamp, c)[j])
  {
    var kept := |Purged(tracks, stamp, c)| - |Purged(tracks[1..], stamp, c)|;
    if j < kept {
      i := 0;
    } else {
      i := PurgedKeeps(tracks[1..], stamp, c, j - kept);
      i := i + 1;
    }
  }

  lemma {:induction false} PurgedJustified(tracks: seq<Track>, nextId: nat, logs: Logs, now: real, stamp: real, c: Config, g: Geometry)
    requires AllJustified(tracks, nextId, logs, now, c, g)
    ensures AllJustified(Purged(tracks, stamp, c), nextId, logs, now, c, g)
  {
    PurgedIds(tracks, nextId, stamp, c);
    var kept := Purged(tracks, stamp, c);
    forall j | 0 <= j < |kept| ensures Justified(kept[j], LogOf(logs, kept[j].id), now, c, g) {
      var i := PurgedKeeps(tracks, stamp, c, j);
      SameEvidenceJustified(tracks[i], kept[j], LogOf(logs, kept[j].id), now, c, g);
    }
  }

  lemma OpenedJustified(s: State, logs: Logs, f: Frame, c: Config, g: Geometry)
    requires AllJustified(s.tracks, s.nextId, logs, s.lastStamp, c, g) && Opens(s, f.stamp, c)
    requires !s.hasStamp ==> s.tracks == []
    ensures var open := Opened(s, f.stamp, c);
            AllJustified(open.tracks, open.nextId, if ArrivalOf(s, f.stamp, c).Restart? then map[] else logs, open.lastStamp, c, g)
  {
    if ArrivalOf(s, f.stamp, c).Regular? {
      PurgedJustified(s.tracks, s.nextId, logs, s.lastStamp, f.stamp.value, c, g);
      if s.hasStamp {
        LaterJustified(Purged(s.tracks, f.stamp.value, c), s.nextId, logs, s.lastStamp, f.stamp.value, c, g);
      }
    }
  }

  ghost predicate StateJustified(s: State, logs: Logs, c: Config, g: Geometry) {
    AllJustified(s.tracks, s.nextId, logs, s.lastStamp, c, g) && (!s.hasStamp ==> s.tracks == [])
  }

  lemma {:induction false} CycleJustified(open: State, logs: Logs, obs: seq<Observation>, policy: Policy, c: Config, g: Geometry)
    requires ValidConfig(c) && AllJustified(open.tracks, open.nextId, logs, open.lastStamp, c, g)
    ensures var s := Cycle(open, obs, policy, c, g).0;
            && s.lastStamp == open.lastStamp && s.hasStamp == open.hasStamp
            && AllJustified(s.tracks, s.nextId,
                            LogUpTo(logs, open.tracks, open.nextId, SortedPairs(obs, open.tracks, open.lastStamp, c, g), obs, |obs|,
                                    open.lastStamp, open.cycle, c, g), open.lastStamp, c, g)
  {
    IntegrateUpToJustified(open.tracks, open.nextId, logs, SortedPairs(obs, open.tracks, open.lastStamp, c, g), obs, |obs|,
                           open.lastStamp, open.cycle, c, g);
  }

  lemma OpenedStep(s: State, f: Frame, c: Config, g: Geometry)
    ensures Opens(s, f.stamp, c) ==> Step(s, f, c, g) == Cycle(Opened(s, f.stamp, c), Canonical(f.observations, c), f.policy, c, g)
    ensures !Opens(s, f.stamp, c) ==> Step(s, f, c, g).0 == s
  {}

  lemma StepJustified(s: State, logs: Logs, f: Frame, c: Config, g: Geometry)
    requires StateJustified(s, logs, c, g)
    ensures StateJustified(Step(s, f, c, g).0, LogStep(logs, s, f, c, g), c, g)
  {
    OpenedStep(s, f, c, g);
    if Opens(s, f.stamp, c) {
      OpenedJustified(s, logs, f, c, g);
      CycleJustified(Opened(s, f.stamp, c), if ArrivalOf(s, f.stamp, c).Restart? then map[] else logs,
                     Canonical(f.observations, c), f.policy, c, g);
    }
  }

  /** On every run, every live track's evidence is in its log. */
  lemma {:induction false} RunJustified(run: Run, c: Config, g: Geometry)
    ensures StateJustified(After(run, c, g), LogsAfter(run, c, g), c, g)
  {
    if run != [] {
      var front := run[..|run| - 1];
      RunJustified(front, c, g);
      StepJustified(After(front, c, g), LogsAfter(front, c, g), run[|run| - 1], c, g);
    }
  }

  /** The decision's confirmed track is a live one that passed the formal gate. */
  lemma ConfirmedTrack(s: State, f: Frame, c: Config, g: Geometry) returns (j: nat)
    requires Step(s, f, c, g).1.confirmed.Some?
    ensures var (s', d) := Step(s, f, c, g);
            && j < |s'.tracks| && d.confirmed == Some(s'.tracks[j].id) && FormalWarning(s'.tracks[j], f.policy, c)
  {
    var open, obs := Opened(s, f.stamp, c), Canonical(f.observations, c);
    var tracks := Cycle(open, obs, f.policy, c, g).0.tracks;
    j := Choose(tracks, |tracks|, f.policy, c).selected;
  }

  /**
   With far history required, on every run a confirmed hazard's track either had certified static
   provenance under its current authority, or had, under that authority, enough accepted observations in
   consecutive cycles, all source-validated and beyond the level-2 distance after uncertainty, spanning
   the configured duration. Its latest confirmFrames accepted observations at least are source-validated,
   in consecutive cycles and under that authority.
   */
  lemma ConfirmedHazardIsJustified(run: Run, f: Frame, c: Config, g: Geometry) returns (t: Track)
    requires c.requireFarHistory && Step(After(run, c, g), f, c, g).1.confirmed.Some?
    ensures var (s, d) := Step(After(run, c, g), f, c, g);
            var log := LogOf(LogsAfter(run + [f], c, g), t.id);
            && t in s.tracks && d.confirmed == Some(t.id)
            && (HasCertificate(log, t.authority) || HasFarEvidence(log, t.authority, c))
            && t.streaks.validated >= c.confirmFrames && ValidatedRun(log, t.streaks.validated, t.authority)
  {
    var s := After(run, c, g);
    assert (run + [f])[..|run|] == run;
    RunJustified(run + [f], c, g);
    assert After(run + [f], c, g) == Step(s, f, c, g).0;
    var j := ConfirmedTrack(s, f, c, g);
    t := After(run + [f], c, g).tracks[j];
    var log := LogOf(LogsAfter(run + [f], c, g), t.id);
    ValidatedIsRun(log, c, g);
    HeldIsEvidence(log, c, g);
  }
}
