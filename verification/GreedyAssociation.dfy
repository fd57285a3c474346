/**
 The tracker's global association: legal observation-track pairs, cheapest first, each taken when
 both its ends are free; and the reciprocal-unique test on the best costs.
 */
module GreedyAssociation {
  import opened Prelude
  import opened ObstacleTracks

  datatype Pair = Pair(obs: nat, track: nat, cost: real, overlap: real, iou: real, neighborOverlap: real)

  predicate Clash(p: Pair, q: Pair) { p.obs == q.obs || p.track == q.track }

  ghost predicate CheapestFirst(pairs: seq<Pair>) {
    forall i, j :: 0 <= i < j < |pairs| ==> pairs[i].cost <= pairs[j].cost
  }

  ghost predicate Bounded(pairs: seq<Pair>, observations: nat, tracks: nat) {
    forall i :: 0 <= i < |pairs| ==> pairs[i].obs < observations && pairs[i].track < tracks
  }

  /** Pair i is taken when no taken pair before it uses its observation or its track. */
  predicate Taken(pairs: seq<Pair>, i: nat)
    requires i < |pairs|
  {
    forall j :: 0 <= j < i && Taken(pairs, j) ==> !Clash(pairs[j], pairs[i])
  }

  /** The taken pair of an observation, or -1. */
  function TakenPair(pairs: seq<Pair>, obs: nat, k: nat): (i: int)
    requires k <= |pairs|
    ensures -1 <= i < k
    ensures i >= 0 ==> pairs[i].obs == obs && Taken(pairs, i)
  {
    if k == 0 then -1
    else if pairs[k - 1].obs == obs && Taken(pairs, k - 1) then k - 1
    else TakenPair(pairs, obs, k - 1)
  }

  /** Taken pairs never share an observation or a track. */
  lemma {:induction false} OneToOne(pairs: seq<Pair>, i: nat, j: nat)
    requires i < |pairs| && j < |pairs| && Taken(pairs, i) && Taken(pairs, j)
    ensures Clash(pairs[i], pairs[j]) ==> i == j
  {
    if i != j {
      var low, high := if i < j then i else j, if i < j then j else i;
      assert Taken(pairs, low) && Taken(pairs, high);
    }
  }

  /** A legal pair is left out only for a taken pair at one of its ends that costs no more. */
  lemma {:induction false} MaximalAndStable(pairs: seq<Pair>, i: nat)
    requires CheapestFirst(pairs) && i < |pairs|
    ensures !Taken(pairs, i) ==>
              exists j :: 0 <= j < |pairs| && Taken(pairs, j) && Clash(pairs[j], pairs[i]) && pairs[j].cost <= pairs[i].cost
  {}

  lemma {:induction false} TakenPairFound(pairs: seq<Pair>, k: nat, i: nat)
    requires i < k <= |pairs| && Taken(pairs, i)
    ensures TakenPair(pairs, pairs[i].obs, k) == i
  {
    if i == k - 1 {
    } else {
      TakenPairFound(pairs, k - 1, i);
      if Taken(pairs, k - 1) { OneToOne(pairs, i, k - 1); }
    }
  }

  /** The assignment loop over the sorted pairs takes exactly the taken ones. */
  method Assign(pairs: seq<Pair>, observations: nat, tracks: nat) returns (owner: seq<int>)
    requires Bounded(pairs, observations, tracks)
    ensures |owner| == observations
    ensures forall o :: 0 <= o < observations ==> owner[o] == TakenPair(pairs, o, |pairs|)
  {
    owner := seq(observations, _ => -1);
    var trackAssigned := seq(tracks, _ => false);
    for k := 0 to |pairs|
      invariant |owner| == observations && |trackAssigned| == tracks
      invariant forall o :: 0 <= o < observations ==> owner[o] == TakenPair(pairs, o, k)
      invariant forall t :: 0 <= t < tracks ==> (trackAssigned[t] <==> exists i :: 0 <= i < k && Taken(pairs, i) && pairs[i].track == t)
    {
      var p := pairs[k];
      NextTaken(pairs, k);
      if owner[p.obs] == -1 && !trackAssigned[p.track] {
        owner := owner[p.obs := k];
        trackAssigned := trackAssigned[p.track := true];
      }
    }
  }

  lemma {:induction false} NextTaken(pairs: seq<Pair>, k: nat)
    requires k < |pairs|
    ensures Taken(pairs, k) <==>
              && TakenPair(pairs, pairs[k].obs, k) == -1
              && !exists i :: 0 <= i < k && Taken(pairs, i) && pairs[i].track == pairs[k].track
  {
    if TakenPair(pairs, pairs[k].obs, k) == -1 {
      forall i | 0 <= i < k && Taken(pairs, i)
        ensures pairs[i].obs != pairs[k].obs
      {
        TakenPairFound(pairs, k, i);
      }
    }
  }

  // ---------------------------------------------------------------- best costs

  datatype Side = OfObservation | OfTrack

  function Key(p: Pair, side: Side): nat { if side == OfObservation then p.obs else p.track }

  /** Best cost so far and how many pairs lie within COST_EPSILON of it. */
  datatype Tally = Tally(best: Option<real>, count: nat)

  function Accumulate(t: Tally, cost: real): Tally {
    if t.best.None? || cost + COST_EPSILON < t.best.value then Tally(Some(cost), 1)
    else if Abs(cost - t.best.value) <= COST_EPSILON then t.(count := t.count + 1)
    else t
  }

  function TallyOf(pairs: seq<Pair>, side: Side, key: nat): Tally {
    if pairs == [] then Tally(None, 0)
    else
      var front, last := TallyOf(pairs[..|pairs| - 1], side, key), pairs[|pairs| - 1];
      if Key(last, side) == key then Accumulate(front, last.cost) else front
  }

  ghost predicate Tallied(pairs: seq<Pair>, side: Side, tallies: seq<Tally>) {
    forall key :: 0 <= key < |tallies| ==> tallies[key] == TallyOf(pairs, side, key)
  }

  /** One pass over the pairs fills the best cost and its count for every key of a side. */
  method TallySide(pairs: seq<Pair>, side: Side, count: nat) returns (tallies: seq<Tally>)
    requires forall i :: 0 <= i < |pairs| ==> Key(pairs[i], side) < count
    ensures |tallies| == count && Tallied(pairs, side, tallies)
  {
    tallies := seq(count, _ => Tally(None, 0));
    for i := 0 to |pairs|
      invariant |tallies| == count && Tallied(pairs[..i], side, tallies)
    {
      var p := pairs[i];
      assert pairs[..i + 1][..i] == pairs[..i];
      tallies := tallies[Key(p, side) := Accumulate(tallies[Key(p, side)], p.cost)];
    }
    assert pairs[..|pairs|] == pairs;
  }

  predicate NearBest(t: Tally, cost: real) {
    t.count == 1 && t.best.Some? && Abs(cost - t.best.value) <= COST_EPSILON
  }

  predicate ReciprocalUnique(pairs: seq<Pair>, i: nat)
    requires i < |pairs|
  {
    && NearBest(TallyOf(pairs, OfObservation, pairs[i].obs), pairs[i].cost)
    && NearBest(TallyOf(pairs, OfTrack, pairs[i].track), pairs[i].cost)
  }

  /** The reciprocal-unique test on the filled tallies. */
  method TestUnique(pairs: seq<Pair>, i: nat, ofObservation: seq<Tally>, ofTrack: seq<Tally>) returns (unique: bool)
    requires i < |pairs| && pairs[i].obs < |ofObservation| && pairs[i].track < |ofTrack|
    requires Tallied(pairs, OfObservation, ofObservation) && Tallied(pairs, OfTrack, ofTrack)
    ensures unique == ReciprocalUnique(pairs, i)
  {
    unique := NearBest(ofObservation[pairs[i].obs], pairs[i].cost) && NearBest(ofTrack[pairs[i].track], pairs[i].cost);
  }

  /** Pair i is cheaper by more than COST_EPSILON than every other pair with the same key. */
  ghost predicate Alone(pairs: seq<Pair>, side: Side, i: nat)
    requires i < |pairs|
  {
    forall j :: 0 <= j < |pairs| && j != i && Key(pairs[j], side) == Key(pairs[i], side) ==>
      pairs[j].cost > pairs[i].cost + COST_EPSILON
  }

  lemma AloneSoFar(pairs: seq<Pair>, side: Side, i: nat)
    requires i < |pairs| - 1
    ensures var k := |pairs| - 1;
            Alone(pairs, side, i) <==>
              Alone(pairs[..k], side, i) && (Key(pairs[k], side) == Key(pairs[i], side) ==> pairs[k].cost > pairs[i].cost + COST_EPSILON)
  {
    var front := pairs[..|pairs| - 1];
    assert forall j :: 0 <= j < |front| ==> front[j] == pairs[j];
  }

  lemma {:induction false} TallyMeaning(pairs: seq<Pair>, side: Side, key: nat) returns (first: int)
    requires CheapestFirst(pairs)
    ensures -1 <= first < |pairs|
    ensures var t := TallyOf(pairs, side, key);
            && (first == -1 <==> forall j :: 0 <= j < |pairs| ==> Key(pairs[j], side) != key)
            && (first == -1 <==> t == Tally(None, 0))
            && (first >= 0 ==> Key(pairs[first], side) == key && t.best == Some(pairs[first].cost) && t.count >= 1
                               && (t.count == 1 <==> Alone(pairs, side, first)))
            && (first >= 0 ==> forall j :: 0 <= j < |pairs| && Key(pairs[j], side) == key ==> pairs[first].cost <= pairs[j].cost)
  {
    if pairs == [] {
      first := -1;
    } else {
      var k := |pairs| - 1;
      var front := pairs[..k];
      assert forall j :: 0 <= j < k ==> front[j] == pairs[j];
      first := TallyMeaning(front, side, key);
      if first >= 0 {
        AloneSoFar(pairs, side, first);
      } else if Key(pairs[k], side) == key {
        first := k;
      }
    }
  }

  lemma {:induction false} NearBestIsAlone(pairs: seq<Pair>, side: Side, i: nat)
    requires CheapestFirst(pairs) && i < |pairs|
    ensures NearBest(TallyOf(pairs, side, Key(pairs[i], side)), pairs[i].cost) <==> Alone(pairs, side, i)
  {
    var first := TallyMeaning(pairs, side, Key(pairs[i], side));
  }

  /** A reciprocal-unique pair beats every rival at both ends by more than COST_EPSILON, and is taken. */
  lemma {:induction false} ReciprocalUniqueMeaning(pairs: seq<Pair>, i: nat)
    requires CheapestFirst(pairs) && i < |pairs|
    ensures ReciprocalUnique(pairs, i) <==>
              forall j :: 0 <= j < |pairs| && j != i && Clash(pairs[j], pairs[i]) ==> pairs[j].cost > pairs[i].cost + COST_EPSILON
    ensures ReciprocalUnique(pairs, i) ==> Taken(pairs, i)
  {
    NearBestIsAlone(pairs, OfObservation, i);
    NearBestIsAlone(pairs, OfTrack, i);
    assert Alone(pairs, OfObservation, i) && Alone(pairs, OfTrack, i) <==>
           forall j :: 0 <= j < |pairs| && j != i && Clash(pairs[j], pairs[i]) ==> pairs[j].cost > pairs[i].cost + COST_EPSILON;
  }
}
