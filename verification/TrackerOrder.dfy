/**
 The order of the tracker's two sorts, and independence of the order in which a frame's
 observations arrive.
 */
module TrackerOrder {
  import opened ObstacleTracks
  import opened GreedyAssociation
  import opened ObstacleTracker
  import Sorting

  // ---------------------------------------------------------------- live track ids

  /** Live ids are distinct (tracks keep their creation order) and below the next id. */
  ghost predicate IdsAscend(tracks: seq<Track>, nextId: nat) {
    && (forall i, j :: 0 <= i < j < |tracks| ==> tracks[i].id < tracks[j].id)
    && (forall i :: 0 <= i < |tracks| ==> tracks[i].id < nextId)
  }

  lemma {:induction false} PurgedIds(tracks: seq<Track>, nextId: nat, stamp: real, c: Config)
    requires IdsAscend(tracks, nextId)
    ensures IdsAscend(Purged(tracks, stamp, c), nextId)
    ensures forall i :: 0 <= i < |Purged(tracks, stamp, c)| ==> tracks != [] && tracks[0].id <= Purged(tracks, stamp, c)[i].id
  {
    if tracks != [] {
      PurgedIds(tracks[1..], nextId, stamp, c);
    }
  }

  /** Later tracks extend the earlier ones and keep their ids. */
  ghost predicate KeepsIds(tracks: seq<Track>, later: seq<Track>) {
    |tracks| <= |later| && forall j :: 0 <= j < |tracks| ==> later[j].id == tracks[j].id
  }

  lemma ReplaceKeepsIds(tracks: seq<Track>, nextId: nat, later: seq<Track>)
    requires IdsAscend(tracks, nextId) && KeepsIds(tracks, later) && |later| == |tracks|
    ensures IdsAscend(later, nextId)
  {
  }

  lemma IntegrateIds(tracks: seq<Track>, nextId: nat, pairs: seq<Pair>, k: nat, o: Observation,
                     stamp: real, cycle: nat, c: Config, g: Geometry)
    requires IdsAscend(tracks, nextId)
    ensures IdsAscend(Integrate(tracks, nextId, pairs, k, o, stamp, cycle, c, g), NextId(nextId, pairs, k))
    ensures KeepsIds(tracks, Integrate(tracks, nextId, pairs, k, o, stamp, cycle, c, g))
  {
    var later := Integrate(tracks, nextId, pairs, k, o, stamp, cycle, c, g);
    if OutcomeOf(pairs, k) != Created {
      ReplaceKeepsIds(tracks, nextId, later);
    }
  }

  /** Induction over the positions of a cycle. */
  lemma {:induction false} Climb(p: nat -> bool, k: nat)
    requires p(0) && forall i: nat, j: nat :: i < k && j == i + 1 && p(i) ==> p(j)
    ensures p(k)
  {
    if k > 0 {
      Climb(p, k - 1);
    }
  }

  ghost predicate IdsAt(tracks: seq<Track>, nextId: nat, pairs: seq<Pair>, obs: seq<Observation>, k: nat,
                        stamp: real, cycle: nat, c: Config, g: Geometry)
    requires k <= |obs|
  {
    var w := IntegrateUpTo(tracks, nextId, pairs, obs, k, stamp, cycle, c, g);
    IdsAscend(w.0, w.1) && KeepsIds(tracks, w.0)
  }

  lemma IdsNext(tracks: seq<Track>, nextId: nat, pairs: seq<Pair>, obs: seq<Observation>, k: nat,
                stamp: real, cycle: nat, c: Config, g: Geometry, next: nat)
    requires next == k + 1 && k < |obs| && IdsAt(tracks, nextId, pairs, obs, k, stamp, cycle, c, g)
    ensures IdsAt(tracks, nextId, pairs, obs, next, stamp, cycle, c, g)
  {
    var w := IntegrateUpTo(tracks, nextId, pairs, obs, k, stamp, cycle, c, g);
    var w' := IntegrateUpTo(tracks, nextId, pairs, obs, next, stamp, cycle, c, g);
    assert w'.0 == Integrate(w.0, w.1, pairs, k, obs[k], stamp, cycle, c, g) && w'.1 == NextId(w.1, pairs, k);
    IntegrateIds(w.0, w.1, pairs, k, obs[k], stamp, cycle, c, g);
  }

  lemma IntegrateUpToIds(tracks: seq<Track>, nextId: nat, pairs: seq<Pair>, obs: seq<Observation>, k: nat,
                         stamp: real, cycle: nat, c: Config, g: Geometry)
    requires k <= |obs| && IdsAscend(tracks, nextId)
    ensures IdsAt(tracks, nextId, pairs, obs, k, stamp, cycle, c, g)
  {
    var p := (i: nat) => i <= |obs| && IdsAt(tracks, nextId, pairs, obs, i, stamp, cycle, c, g);
    forall i: nat, j: nat | i < k && j == i + 1 && p(i) ensures p(j) {
      IdsNext(tracks, nextId, pairs, obs, i, stamp, cycle, c, g, j);
    }
    Climb(p, k);
  }

  lemma OpenedIds(s: State, f: Frame, c: Config)
    requires IdsAscend(s.tracks, s.nextId) && Opens(s, f.stamp, c)
    ensures IdsAscend(Opened(s, f.stamp, c).tracks, Opened(s, f.stamp, c).nextId)
  {
    PurgedIds(s.tracks, s.nextId, f.stamp.value, c);
  }

  lemma StepIds(s: State, f: Frame, c: Config, g: Geometry)
    requires IdsAscend(s.tracks, s.nextId)
    ensures IdsAscend(Step(s, f, c, g).0.tracks, Step(s, f, c, g).0.nextId)
  {
    if Opens(s, f.stamp, c) {
      OpenedIds(s, f, c);
      var open, obs := Opened(s, f.stamp, c), Canonical(f.observations, c);
      IntegrateUpToIds(open.tracks, open.nextId, SortedPairs(obs, open.tracks, open.lastStamp, c, g), obs, |obs|,
                       open.lastStamp, open.cycle, c, g);
    }
  }

  // ---------------------------------------------------------------- the pair order

  /** Rows follow each other by observation, entries of a row by track. */
  ghost predicate RowMajor(pairs: seq<Pair>) {
    forall i, j :: 0 <= i < j < |pairs| ==>
      pairs[i].obs < pairs[j].obs || (pairs[i].obs == pairs[j].obs && pairs[i].track < pairs[j].track)
  }

  lemma {:induction false} RowOrdered(obs: seq<Observation>, tracks: seq<Track>, i: nat, m: nat, stamp: real, c: Config, g: Geometry)
    requires i < |obs| && m <= |tracks| && ValidConfig(c)
    ensures RowMajor(LegalRow(obs, tracks, i, m, stamp, c, g))
  {
    if m > 0 {
      RowOrdered(obs, tracks, i, m - 1, stamp, c, g);
      RowBounded(obs, tracks, i, m - 1, stamp, c, g);
    }
  }

  lemma {:induction false} PairsOrdered(obs: seq<Observation>, tracks: seq<Track>, n: nat, stamp: real, c: Config, g: Geometry)
    requires n <= |obs| && ValidConfig(c)
    ensures RowMajor(LegalPairs(obs, tracks, n, stamp, c, g))
  {
    if n > 0 {
      PairsOrdered(obs, tracks, n - 1, stamp, c, g);
      PairsBounded(obs, tracks, n - 1, stamp, c, g);
      RowOrdered(obs, tracks, n - 1, |tracks|, stamp, c, g);
      RowBounded(obs, tracks, n - 1, |tracks|, stamp, c, g);
    }
  }

  /** With distinct live ids the comparison is a strict total order on the legal pairs, so the sort is determined. */
  lemma {:induction false} PairOrderTotal(obs: seq<Observation>, tracks: seq<Track>, nextId: nat, stamp: real, c: Config, g: Geometry)
    requires ValidConfig(c) && IdsAscend(tracks, nextId)
    ensures Sorting.StrictTotalOn(PairLess(tracks), LegalPairs(obs, tracks, |obs|, stamp, c, g))
  {
    var pairs := LegalPairs(obs, tracks, |obs|, stamp, c, g);
    PairsOrdered(obs, tracks, |obs|, stamp, c, g);
    PairsBounded(obs, tracks, |obs|, stamp, c, g);
    forall i, j | 0 <= i < j < |pairs|
      ensures PairLess(tracks)(pairs[i], pairs[j]) || PairLess(tracks)(pairs[j], pairs[i])
    {
      TellApart(tracks, nextId, pairs[i], pairs[j]);
    }
  }

  lemma TellApart(tracks: seq<Track>, nextId: nat, p: Pair, q: Pair)
    requires IdsAscend(tracks, nextId) && p.track < |tracks| && q.track < |tracks|
    requires p.obs != q.obs || p.track != q.track
    ensures PairLess(tracks)(p, q) || PairLess(tracks)(q, p)
  {
    assert p.track < q.track ==> tracks[p.track].id < tracks[q.track].id;
    assert q.track < p.track ==> tracks[q.track].id < tracks[p.track].id;
  }

  lemma PairsCheapestFirst(obs: seq<Observation>, tracks: seq<Track>, nextId: nat, stamp: real, c: Config, g: Geometry)
    requires ValidConfig(c) && IdsAscend(tracks, nextId)
    ensures CheapestFirst(SortedPairs(obs, tracks, stamp, c, g))
  {
    var legal := LegalPairs(obs, tracks, |obs|, stamp, c, g);
    PairOrderTotal(obs, tracks, nextId, stamp, c, g);
    Sorting.SortIncreasing(PairLess(tracks), legal);
    var sorted := SortedPairs(obs, tracks, stamp, c, g);
    forall i, j | 0 <= i < j < |sorted| ensures sorted[i].cost <= sorted[j].cost {
      assert PairLess(tracks)(sorted[i], sorted[j]);
    }
  }

  // ---------------------------------------------------------------- the observation order

  /** No two observations of the collection share a canonical key. */
  ghost predicate DistinctKeys(m: multiset<Observation>) {
    && (forall x :: x in m ==> m[x] == 1)
    && (forall x, y :: x in m && y in m && CanonicalKey(x) == CanonicalKey(y) ==> x == y)
  }

  lemma PositionsDiffer<T>(s: seq<T>, i: nat, j: nat)
    requires i < j < |s| && s[i] == s[j]
    ensures multiset(s)[s[i]] >= 2
  {
    assert s == s[..j] + [s[j]] + s[j + 1..];
    assert s[..j][i] == s[i];
    assert s[i] in multiset(s[..j]);
  }

  lemma CanonicalOrderTotal(s: seq<Observation>)
    requires DistinctKeys(multiset(s))
    ensures Sorting.StrictTotalOn(CanonicalLess, s)
  {
    forall x, y | CanonicalLess(x, y) ensures !CanonicalLess(y, x) {
      Sorting.LexAsymmetric(RealLess, CanonicalKey(x), CanonicalKey(y));
    }
    forall x, y, z | CanonicalLess(x, y) && CanonicalLess(y, z) ensures CanonicalLess(x, z) {
      Sorting.LexTransitive(RealLess, CanonicalKey(x), CanonicalKey(y), CanonicalKey(z));
    }
    forall i, j | 0 <= i < j < |s| ensures CanonicalLess(s[i], s[j]) || CanonicalLess(s[j], s[i]) {
      assert s[i] in multiset(s) && s[j] in multiset(s);
      if s[i] == s[j] { PositionsDiffer(s, i, j); }
      Sorting.LexTotal(RealLess, CanonicalKey(s[i]), CanonicalKey(s[j]));
    }
  }

  // ---------------------------------------------------------------- permuted observations

  /** The canonical observation list of a frame does not depend on arrival order. */
  lemma CanonicalPermuted(s: seq<Observation>, t: seq<Observation>, c: Config)
    requires multiset(s) == multiset(t) && DistinctKeys(multiset(Prepared(s, c)))
    ensures Canonical(s, c) == Canonical(t, c)
  {
    Sorting.CollectedPermuted(s, t, Keeps(c), Canonicalise());
    CanonicalOrderTotal(Prepared(s, c));
    CanonicalOrderTotal(Prepared(t, c));
    Sorting.SortIgnoresOrder(CanonicalLess, Prepared(s, c), Prepared(t, c));
  }

  // ---------------------------------------------------------------- whole runs

  type Run = seq<Frame>

  function After(run: Run, c: Config, g: Geometry): State {
    if run == [] then INITIAL else Step(After(run[..|run| - 1], c, g), run[|run| - 1], c, g).0
  }

  function LastDecision(run: Run, c: Config, g: Geometry): Decision {
    if run == [] then NO_DECISION else Step(After(run[..|run| - 1], c, g), run[|run| - 1], c, g).1
  }

  /** Live track ids are distinct after every run. */
  lemma {:induction false} RunIds(run: Run, c: Config, g: Geometry)
    ensures IdsAscend(After(run, c, g).tracks, After(run, c, g).nextId)
  {
    if run != [] {
      RunIds(run[..|run| - 1], c, g);
      StepIds(After(run[..|run| - 1], c, g), run[|run| - 1], c, g);
    }
  }

  /** The same frames, with the observations of each rearranged and no canonical key repeated in a frame. */
  ghost predicate Rearranged(run: Run, other: Run, c: Config) {
    && |run| == |other|
    && (forall i :: 0 <= i < |run| ==>
          && run[i].stamp == other[i].stamp && run[i].policy == other[i].policy
          && multiset(run[i].observations) == multiset(other[i].observations)
          && DistinctKeys(multiset(Prepared(run[i].observations, c))))
  }

  /** Two such runs have the same tracks, ids and decisions throughout. */
  lemma {:induction false} ArrivalOrderIrrelevant(run: Run, other: Run, c: Config, g: Geometry)
    requires Rearranged(run, other, c)
    ensures After(run, c, g) == After(other, c, g)
    ensures LastDecision(run, c, g) == LastDecision(other, c, g)
  {
    if run != [] {
      var k := |run| - 1;
      ArrivalOrderIrrelevant(run[..k], other[..k], c, g);
      CanonicalPermuted(run[k].observations, other[k].observations, c);
    }
  }

  /**
   Nor does it matter which sorting algorithm the two sorts use: on every run any increasing arrangement
   of the legal pairs, and of the frame's observations, is the modelled one.
   */
  lemma {:induction false} SortsAreDetermined(run: Run, f: Frame, c: Config, g: Geometry, obs: seq<Observation>, pairs: seq<Pair>)
    requires Opens(After(run, c, g), f.stamp, c)
    requires DistinctKeys(multiset(Prepared(f.observations, c)))
    requires multiset(obs) == multiset(Prepared(f.observations, c)) && Sorting.Increasing(CanonicalLess, obs)
    requires var open := Opened(After(run, c, g), f.stamp, c);
             && multiset(pairs) == multiset(LegalPairs(obs, open.tracks, |obs|, open.lastStamp, c, g))
             && Sorting.Increasing(PairLess(open.tracks), pairs)
    ensures obs == Canonical(f.observations, c)
    ensures var open := Opened(After(run, c, g), f.stamp, c); pairs == SortedPairs(obs, open.tracks, open.lastStamp, c, g)
  {
    var s := After(run, c, g);
    var open := Opened(s, f.stamp, c);
    RunIds(run, c, g);
    OpenedIds(s, f, c);
    CanonicalOrderTotal(Prepared(f.observations, c));
    Sorting.AnySortAgrees(CanonicalLess, Prepared(f.observations, c), obs);
    PairOrderTotal(obs, open.tracks, open.nextId, open.lastStamp, c, g);
    Sorting.AnySortAgrees(PairLess(open.tracks), LegalPairs(obs, open.tracks, |obs|, open.lastStamp, c, g), pairs);
  }

  // ---------------------------------------------------------------- the most dangerous track

  /** Not being less dangerous is transitive: the comparison ranks all tracks with distinct ids. */
  lemma DangerRanks(a: Track, b: Track, d: Track)
    requires !MoreDangerous(a, b) && !MoreDangerous(b, d)
    ensures !MoreDangerous(a, d)
  {}

  lemma DangerAsymmetric(a: Track, b: Track)
    requires MoreDangerous(a, b)
    ensures !MoreDangerous(b, a)
  {}

  /** Among the observed tracks below k with the property, the index is one that none of them outranks; -1 if there are none. */
  ghost predicate Worst(tracks: seq<Track>, k: nat, index: int, has: Track -> bool)
    requires k <= |tracks|
  {
    && -1 <= index < k
    && (index >= 0 ==> tracks[index].current.observed && has(tracks[index]))
    && (forall i :: 0 <= i < k && tracks[i].current.observed && has(tracks[i]) ==>
          index >= 0 && !MoreDangerous(tracks[i], tracks[index]))
  }

  lemma WorstNext(tracks: seq<Track>, k: nat, index: int, next: int, has: Track -> bool)
    requires k < |tracks| && Worst(tracks, k, index, has)
    requires next == if tracks[k].current.observed && has(tracks[k]) && Better(tracks, k, index) then k else index
    ensures Worst(tracks, k + 1, next, has)
  {
    forall i | 0 <= i < k + 1 && tracks[i].current.observed && has(tracks[i])
      ensures next >= 0 && !MoreDangerous(tracks[i], tracks[next])
    {
      if next == k && i < k {
        DangerAsymmetric(tracks[k], tracks[index]);
        DangerRanks(tracks[i], tracks[index], tracks[k]);
      }
    }
  }

  lemma {:induction false} SelectedIsWorst(tracks: seq<Track>, k: nat, policy: Policy, c: Config)
    requires k <= |tracks|
    ensures Worst(tracks, k, Choose(tracks, k, policy, c).selected, (t: Track) => FormalWarning(t, policy, c))
  {
    if k > 0 {
      SelectedIsWorst(tracks, k - 1, policy, c);
      WorstNext(tracks, k - 1, Choose(tracks, k - 1, policy, c).selected, Choose(tracks, k, policy, c).selected,
                (t: Track) => FormalWarning(t, policy, c));
    }
  }

  lemma {:induction false} ReviewIsWorst(tracks: seq<Track>, k: nat, policy: Policy, c: Config)
    requires k <= |tracks|
    ensures Worst(tracks, k, Choose(tracks, k, policy, c).review, (t: Track) => ReviewWarning(t, c))
  {
    if k > 0 {
      ReviewIsWorst(tracks, k - 1, policy, c);
      WorstNext(tracks, k - 1, Choose(tracks, k - 1, policy, c).review, Choose(tracks, k, policy, c).review,
                (t: Track) => ReviewWarning(t, c));
    }
  }

  lemma {:induction false} CandidateIsWorst(tracks: seq<Track>, k: nat, policy: Policy, c: Config)
    requires k <= |tracks|
    ensures Worst(tracks, k, Choose(tracks, k, policy, c).candidate, (t: Track) => true)
  {
    if k > 0 {
      CandidateIsWorst(tracks, k - 1, policy, c);
      WorstNext(tracks, k - 1, Choose(tracks, k - 1, policy, c).candidate, Choose(tracks, k, policy, c).candidate, (t: Track) => true);
    }
  }

  /**
   The ranking itself: a level-1 code before a level-2 code before any other; of equal rank a known clearance before
   an unknown one, then the smaller clearance, then the smaller distance, then the older track.
   */
  ghost predicate AtLeastAsDangerous(a: Track, b: Track) {
    && (b.body.warningCode == 17 ==> a.body.warningCode == 17)
    && (b.body.warningCode == 18 ==> a.body.warningCode == 17 || a.body.warningCode == 18)
    && ((a.body.warningCode == 17 <==> b.body.warningCode == 17) && (a.body.warningCode == 18 <==> b.body.warningCode == 18) ==>
          && (b.body.clearance.Some? ==> a.body.clearance.Some? && a.body.clearance.value <= b.body.clearance.value)
          && (a.body.clearance == b.body.clearance ==>
                a.body.distance < b.body.distance || (a.body.distance == b.body.distance && a.id <= b.id)))
  }

  lemma DangerMeaning(a: Track, b: Track)
    ensures !MoreDangerous(b, a) <==> AtLeastAsDangerous(a, b)
  {}

  /** None of the observed tracks with the property outranks the one at the index. */
  ghost predicate Leads(tracks: seq<Track>, index: int, has: Track -> bool)
    requires -1 <= index < |tracks|
  {
    index >= 0 ==> forall i :: 0 <= i < |tracks| && tracks[i].current.observed && has(tracks[i]) ==> AtLeastAsDangerous(tracks[index], tracks[i])
  }

  lemma WorstLeads(tracks: seq<Track>, index: int, has: Track -> bool)
    requires Worst(tracks, |tracks|, index, has)
    ensures Leads(tracks, index, has)
  {
    if index >= 0 {
      forall i | 0 <= i < |tracks| && tracks[i].current.observed && has(tracks[i]) ensures AtLeastAsDangerous(tracks[index], tracks[i]) {
        DangerMeaning(tracks[index], tracks[i]);
      }
    }
  }

  /** The decision names the most dangerous formal warning, the most dangerous review and the most dangerous observed track. */
  lemma {:induction false} ChosenAreWorst(tracks: seq<Track>, policy: Policy, c: Config)
    ensures var ch := Choose(tracks, |tracks|, policy, c);
            var formal, review, any := (t: Track) => FormalWarning(t, policy, c), (t: Track) => ReviewWarning(t, c), (t: Track) => true;
            && Worst(tracks, |tracks|, ch.selected, formal) && Leads(tracks, ch.selected, formal)
            && Worst(tracks, |tracks|, ch.review, review) && Leads(tracks, ch.review, review)
            && Worst(tracks, |tracks|, ch.candidate, any) && Leads(tracks, ch.candidate, any)
  {
    SelectedIsWorst(tracks, |tracks|, policy, c);
    ReviewIsWorst(tracks, |tracks|, policy, c);
    CandidateIsWorst(tracks, |tracks|, policy, c);
    var ch := Choose(tracks, |tracks|, policy, c);
    WorstLeads(tracks, ch.selected, (t: Track) => FormalWarning(t, policy, c));
    WorstLeads(tracks, ch.review, (t: Track) => ReviewWarning(t, c));
    WorstLeads(tracks, ch.candidate, (t: Track) => true);
  }
}
