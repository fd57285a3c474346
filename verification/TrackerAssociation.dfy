/**
 What one cycle of the tracker does with its observations, said of the legal pairs themselves: who is
 matched with whom, which matches advance a track, and what becomes of the other observations.
 */
module TrackerAssociation {
  import opened Prelude
  import opened ObstacleTracks
  import opened GreedyAssociation
  import opened ObstacleTracker
  import opened TrackerOrder
  import Sorting

  /** Everything the association of a cycle depends on. */
  datatype Scene = Scene(obs: seq<Observation>, tracks: seq<Track>, stamp: real, config: Config, geometry: Geometry)

  function SceneOf(s: State, f: Frame, c: Config, g: Geometry): Scene
    requires Opens(s, f.stamp, c)
  {
    var open := Opened(s, f.stamp, c);
    Scene(Canonical(f.observations, c), open.tracks, open.lastStamp, c, g)
  }

  ghost predicate Ordered(w: Scene) {
    ValidConfig(w.config) && forall i, j :: 0 <= i < j < |w.tracks| ==> w.tracks[i].id < w.tracks[j].id
  }

  /** Observation k may continue track j. */
  predicate Legal(w: Scene, k: nat, j: nat)
    requires ValidConfig(w.config)
  {
    k < |w.obs| && j < |w.tracks| && LegalPair(w.obs, w.tracks, k, j, w.stamp, w.config, w.geometry).Some?
  }

  function Cost(w: Scene, k: nat, j: nat): real
    requires ValidConfig(w.config) && Legal(w, k, j)
  {
    LegalPair(w.obs, w.tracks, k, j, w.stamp, w.config, w.geometry).value.cost
  }

  function Sorted(w: Scene): seq<Pair>
    requires ValidConfig(w.config)
  {
    SortedPairs(w.obs, w.tracks, w.stamp, w.config, w.geometry)
  }

  /** A track is expected where its velocity takes it since it was seen; stamps before that do not take it back. */
  lemma PredictedMoves(t: Track, stamp: real)
    ensures var p, ahead := Predicted(t, stamp), stamp - t.timing.lastStamp;
            if ahead <= 0.0 then p == t.body.centroid
            else
              && p.x - t.body.centroid.x == t.body.velocity.x * ahead && p.y - t.body.centroid.y == t.body.velocity.y * ahead
              && p.z - t.body.centroid.z == t.body.velocity.z * ahead
  {}

  /** How far observation k lies from where track j is expected. */
  function Distance(w: Scene, k: nat, j: nat): real
    requires k < |w.obs| && j < |w.tracks|
  {
    w.geometry.planarDistance(w.obs[k].centroid, Predicted(w.tracks[j], w.stamp))
  }

  /**
   A pair is legal exactly when the track was seen within the gap, the top has not moved too far, and the two are
   close, share enough cells, or neighbour each other at twice the distance.
   */
  lemma LegalExactly(w: Scene, k: nat, j: nat)
    requires ValidConfig(w.config) && k < |w.obs| && j < |w.tracks|
    ensures var o, t, c := w.obs[k], w.tracks[j], w.config;
            Legal(w, k, j) <==>
              && -0.0001 <= w.stamp - t.timing.lastStamp <= c.maximumGap + 0.0001
              && -c.maximumTopStep <= o.top - t.body.top <= c.maximumTopStep
              && (|| Distance(w, k, j) <= c.maximumCentroidDistance
                  || CellOverlap(o.cells, t.body.cells) >= c.cellOverlapMin || CellIou(o.cells, t.body.cells) >= c.iouMin
                  || (w.geometry.neighborOverlap(o.cells, t.body.cells) >= c.cellOverlapMin
                      && Distance(w, k, j) <= 2.0 * c.maximumCentroidDistance))
  {}

  ghost predicate DistinctCells(cells: seq<int>) { forall i, j :: 0 <= i < j < |cells| ==> cells[i] != cells[j] }

  lemma {:induction false} DistinctSize(cells: seq<int>)
    requires DistinctCells(cells)
    ensures |CellSet(cells)| == |cells|
  {
    if |cells| > 0 {
      var front, last := cells[..|cells| - 1], cells[|cells| - 1];
      DistinctSize(front);
      assert last !in CellSet(front);
      assert CellSet(cells) == CellSet(front) + {last};
    }
  }

  lemma UnionSize(left: set<int>, right: set<int>)
    ensures |left + right| + |left * right| == |left| + |right|
  {}

  /** The overlap is the common share of the smaller set of cells, the second measure the common share of all of them. */
  lemma CellShares(left: seq<int>, right: seq<int>)
    requires DistinctCells(left) && DistinctCells(right)
    ensures var common, all := CellSet(left) * CellSet(right), CellSet(left) + CellSet(right);
            && (all != {} ==> CellIou(left, right) == |common| as real / |all| as real)
            && (left != [] && right != [] ==>
                  CellOverlap(left, right) == |common| as real / (if |left| <= |right| then |left| else |right|) as real)
            && (left == [] || right == [] ==> CellOverlap(left, right) == 0.0 == CellIou(left, right))
  {
    DistinctSize(left);
    DistinctSize(right);
    UnionSize(CellSet(left), CellSet(right));
    assert left == [] ==> CellSet(left) == {};
    assert right == [] ==> CellSet(right) == {};
  }

  /** What the best overlap leaves of one; neighbouring cells count four fifths, and without cells nothing overlaps. */
  ghost predicate LeftOver(w: Scene, k: nat, j: nat, rest: real)
    requires k < |w.obs| && j < |w.tracks|
  {
    var left, right := w.obs[k].cells, w.tracks[j].body.cells;
    var overlap, iou, neighbour := CellOverlap(left, right), CellIou(left, right), w.geometry.neighborOverlap(left, right);
    if left == [] || right == [] then rest == 1.0
    else
      && rest <= 1.0 - overlap && rest <= 1.0 - iou && rest <= 1.0 - 0.8 * neighbour
      && (rest == 1.0 - overlap || rest == 1.0 - iou || rest == 1.0 - 0.8 * neighbour)
  }

  /** The cost of a legal pair is its distance in units of the limit and what the best overlap leaves of one. */
  lemma LegalCost(w: Scene, k: nat, j: nat) returns (rest: real)
    requires ValidConfig(w.config) && Legal(w, k, j)
    ensures Cost(w, k, j) == Distance(w, k, j) / w.config.maximumCentroidDistance + rest && LeftOver(w, k, j, rest)
  {
    var left, right := w.obs[k].cells, w.tracks[j].body.cells;
    rest := if left == [] || right == [] then 1.0
            else 1.0 - Max(Max(CellOverlap(left, right), CellIou(left, right)), 0.8 * w.geometry.neighborOverlap(left, right));
  }

  /** What the cycle does with observation k. */
  function Fate(w: Scene, k: nat): Outcome
    requires ValidConfig(w.config)
  {
    OutcomeOf(Sorted(w), k)
  }

  predicate Matched(w: Scene, k: nat, j: nat)
    requires ValidConfig(w.config)
  {
    Fate(w, k) == Advanced(j) || Fate(w, k) == Frozen(j)
  }

  // ---------------------------------------------------------------- the sorted pairs are the legal ones

  ghost predicate IsLegal(w: Scene, p: Pair)
    requires ValidConfig(w.config)
  {
    Legal(w, p.obs, p.track) && LegalPair(w.obs, w.tracks, p.obs, p.track, w.stamp, w.config, w.geometry) == Some(p)
  }

  lemma PairEnds(w: Scene, k: nat, j: nat)
    requires ValidConfig(w.config) && Legal(w, k, j)
    ensures var p := LegalPair(w.obs, w.tracks, k, j, w.stamp, w.config, w.geometry).value; p.obs == k && p.track == j
  {}

  lemma RowEntry(w: Scene, i: nat, j: nat, p: Pair)
    requires ValidConfig(w.config) && i < |w.obs| && j < |w.tracks|
    ensures LegalPair(w.obs, w.tracks, i, j, w.stamp, w.config, w.geometry) == Some(p) <==> IsLegal(w, p) && p.obs == i && p.track == j
  {
    if Legal(w, i, j) {
      PairEnds(w, i, j);
    }
  }

  lemma {:induction false} RowExactly(w: Scene, i: nat, m: nat, p: Pair)
    requires ValidConfig(w.config) && i < |w.obs| && m <= |w.tracks|
    ensures p in LegalRow(w.obs, w.tracks, i, m, w.stamp, w.config, w.geometry) <==> IsLegal(w, p) && p.obs == i && p.track < m
  {
    if m > 0 {
      RowExactly(w, i, m - 1, p);
      RowEntry(w, i, m - 1, p);
    }
  }

  lemma {:induction false} TableExactly(w: Scene, n: nat, p: Pair)
    requires ValidConfig(w.config) && n <= |w.obs|
    ensures p in LegalPairs(w.obs, w.tracks, n, w.stamp, w.config, w.geometry) <==> IsLegal(w, p) && p.obs < n
  {
    if n > 0 {
      var rest := LegalPairs(w.obs, w.tracks, n - 1, w.stamp, w.config, w.geometry);
      var row := LegalRow(w.obs, w.tracks, n - 1, |w.tracks|, w.stamp, w.config, w.geometry);
      TableExactly(w, n - 1, p);
      RowExactly(w, n - 1, |w.tracks|, p);
      assert p in rest + row <==> p in rest || p in row;
    }
  }

  /** The sorted list holds the legal pairs and nothing else. */
  lemma SortedExactly(w: Scene, p: Pair)
    requires ValidConfig(w.config)
    ensures p in Sorted(w) <==> IsLegal(w, p)
  {
    Sorting.SameMembers(Sorted(w), LegalPairs(w.obs, w.tracks, |w.obs|, w.stamp, w.config, w.geometry));
    TableExactly(w, |w.obs|, p);
  }

  /** The position of a legal pair. */
  lemma PositionOf(w: Scene, k: nat, j: nat) returns (i: nat)
    requires ValidConfig(w.config) && Legal(w, k, j)
    ensures i < |Sorted(w)| && Sorted(w)[i].obs == k && Sorted(w)[i].track == j && Sorted(w)[i].cost == Cost(w, k, j)
  {
    PairEnds(w, k, j);
    var p := LegalPair(w.obs, w.tracks, k, j, w.stamp, w.config, w.geometry).value;
    SortedExactly(w, p);
    i :| i < |Sorted(w)| && Sorted(w)[i] == p;
  }

  lemma LegalAt(w: Scene, i: nat)
    requires ValidConfig(w.config) && i < |Sorted(w)|
    ensures var p := Sorted(w)[i]; Legal(w, p.obs, p.track) && p.cost == Cost(w, p.obs, p.track)
  {
    SortedExactly(w, Sorted(w)[i]);
  }

  lemma Ascends(w: Scene) returns (nextId: nat)
    requires Ordered(w)
    ensures IdsAscend(w.tracks, nextId)
  {
    nextId := if |w.tracks| == 0 then 0 else w.tracks[|w.tracks| - 1].id + 1;
  }

  lemma SortedCheapestFirst(w: Scene)
    requires Ordered(w)
    ensures CheapestFirst(Sorted(w))
  {
    var nextId := Ascends(w);
    PairsCheapestFirst(w.obs, w.tracks, nextId, w.stamp, w.config, w.geometry);
  }

  /** No two positions hold the same two ends. */
  lemma EndsDiffer(w: Scene, a: nat, b: nat)
    requires Ordered(w) && a < |Sorted(w)| && b < |Sorted(w)| && a != b
    ensures Sorted(w)[a].obs != Sorted(w)[b].obs || Sorted(w)[a].track != Sorted(w)[b].track
  {
    var low, high := if a < b then a else b, if a < b then b else a;
    var nextId := Ascends(w);
    PairOrderTotal(w.obs, w.tracks, nextId, w.stamp, w.config, w.geometry);
    Sorting.SortIncreasing(PairLess(w.tracks), LegalPairs(w.obs, w.tracks, |w.obs|, w.stamp, w.config, w.geometry));
    assert PairLess(w.tracks)(Sorted(w)[low], Sorted(w)[high]);
    SortedExactly(w, Sorted(w)[a]);
    SortedExactly(w, Sorted(w)[b]);
  }

  // ---------------------------------------------------------------- the outcome of an observation

  /** A matched observation and its track are the ends of a taken pair. */
  lemma MatchedPair(w: Scene, k: nat, j: nat) returns (i: nat)
    requires ValidConfig(w.config) && Matched(w, k, j)
    ensures i < |Sorted(w)| && Taken(Sorted(w), i) && Sorted(w)[i].obs == k && Sorted(w)[i].track == j
    ensures Fate(w, k) == Advanced(j) <==> ReciprocalUnique(Sorted(w), i)
    ensures Legal(w, k, j) && Sorted(w)[i].cost == Cost(w, k, j)
  {
    i := TakenPair(Sorted(w), k, |Sorted(w)|);
    LegalAt(w, i);
  }

  lemma {:induction false} TakenIsMatched(w: Scene, i: nat)
    requires ValidConfig(w.config) && i < |Sorted(w)| && Taken(Sorted(w), i)
    ensures Matched(w, Sorted(w)[i].obs, Sorted(w)[i].track)
  {
    TakenPairFound(Sorted(w), |Sorted(w)|, i);
  }

  /** No track is matched with two observations. */
  lemma MatchedOnce(w: Scene, k: nat, l: nat, j: nat)
    requires ValidConfig(w.config) && Matched(w, k, j) && Matched(w, l, j)
    ensures k == l
  {
    var a := MatchedPair(w, k, j);
    var b := MatchedPair(w, l, j);
    OneToOne(Sorted(w), a, b);
  }

  /** The observation or the track of a legal pair is matched, and at no higher cost. */
  ghost predicate Served(w: Scene, k: nat, j: nat)
    requires ValidConfig(w.config) && Legal(w, k, j)
  {
    || (exists t: nat :: Matched(w, k, t) && Legal(w, k, t) && Cost(w, k, t) <= Cost(w, k, j))
    || (exists l: nat :: Matched(w, l, j) && Legal(w, l, j) && Cost(w, l, j) <= Cost(w, k, j))
  }

  lemma LegalIsServed(w: Scene, k: nat, j: nat)
    requires Ordered(w) && Legal(w, k, j)
    ensures Served(w, k, j)
  {
    var i := PositionOf(w, k, j);
    SortedCheapestFirst(w);
    MaximalAndStable(Sorted(w), i);
    var a := i;
    if !Taken(Sorted(w), i) {
      a :| 0 <= a < |Sorted(w)| && Taken(Sorted(w), a) && Clash(Sorted(w)[a], Sorted(w)[i]) && Sorted(w)[a].cost <= Sorted(w)[i].cost;
    }
    TakenIsMatched(w, a);
    LegalAt(w, a);
  }

  /** The pair beats every other legal pair of its observation or of its track by more than COST_EPSILON. */
  ghost predicate Unrivalled(w: Scene, k: nat, j: nat)
    requires ValidConfig(w.config)
  {
    && Legal(w, k, j)
    && (forall t: nat :: t != j && Legal(w, k, t) ==> Cost(w, k, t) > Cost(w, k, j) + COST_EPSILON)
    && (forall l: nat :: l != k && Legal(w, l, j) ==> Cost(w, l, j) > Cost(w, k, j) + COST_EPSILON)
  }

  lemma UnrivalledAt(w: Scene, i: nat)
    requires Ordered(w) && i < |Sorted(w)|
    ensures ReciprocalUnique(Sorted(w), i) <==> Unrivalled(w, Sorted(w)[i].obs, Sorted(w)[i].track)
  {
    var k, j := Sorted(w)[i].obs, Sorted(w)[i].track;
    SortedCheapestFirst(w);
    ReciprocalUniqueMeaning(Sorted(w), i);
    LegalAt(w, i);
    if ReciprocalUnique(Sorted(w), i) {
      forall t: nat | t != j && Legal(w, k, t) ensures Cost(w, k, t) > Cost(w, k, j) + COST_EPSILON {
        var a := PositionOf(w, k, t);
      }
      forall l: nat | l != k && Legal(w, l, j) ensures Cost(w, l, j) > Cost(w, k, j) + COST_EPSILON {
        var a := PositionOf(w, l, j);
      }
    } else {
      var a :| 0 <= a < |Sorted(w)| && a != i && Clash(Sorted(w)[a], Sorted(w)[i]) && Sorted(w)[a].cost <= Sorted(w)[i].cost + COST_EPSILON;
      LegalAt(w, a);
      EndsDiffer(w, a, i);
    }
  }

  /** A track is advanced by an observation if and only if their pair is unrivalled at both ends. */
  lemma AdvancedExactly(w: Scene, k: nat, j: nat)
    requires Ordered(w)
    ensures Fate(w, k) == Advanced(j) <==> Unrivalled(w, k, j)
  {
    if Fate(w, k) == Advanced(j) {
      var i := MatchedPair(w, k, j);
      UnrivalledAt(w, i);
    } else if Unrivalled(w, k, j) {
      var i := PositionOf(w, k, j);
      UnrivalledAt(w, i);
      SortedCheapestFirst(w);
      ReciprocalUniqueMeaning(Sorted(w), i);
      TakenPairFound(Sorted(w), |Sorted(w)|, i);
    }
  }

  /** An observation opens a track if and only if it has no legal pair at all. */
  lemma CreatedExactly(w: Scene, k: nat)
    requires Ordered(w)
    ensures Fate(w, k) == Created <==> forall j: nat :: !Legal(w, k, j)
  {
    SortedCheapestFirst(w);
    var first := TallyMeaning(Sorted(w), OfObservation, k);
    if first >= 0 {
      LegalAt(w, first);
    } else {
      forall j: nat ensures !Legal(w, k, j) {
        if Legal(w, k, j) {
          var i := PositionOf(w, k, j);
        }
      }
    }
  }

  /**
   The association of a cycle, on the legal pairs alone: matching is one-to-one; every legal pair is served
   at no higher cost at one of its ends; a track advances exactly by its unrivalled pair; a track is opened
   exactly by an observation without legal pairs.
   */
  ghost predicate Associates(w: Scene)
    requires ValidConfig(w.config)
  {
    && (forall k: nat, l: nat, j: nat :: Matched(w, k, j) && Matched(w, l, j) ==> k == l)
    && (forall k: nat, j: nat :: Matched(w, k, j) ==> Legal(w, k, j))
    && (forall k: nat, j: nat :: Legal(w, k, j) ==> Served(w, k, j))
    && (forall k: nat, j: nat :: Fate(w, k) == Advanced(j) <==> Unrivalled(w, k, j))
    && (forall k: nat :: Fate(w, k) == Created <==> forall j: nat :: !Legal(w, k, j))
  }

  lemma SceneAssociates(w: Scene)
    requires Ordered(w)
    ensures Associates(w)
  {
    forall k: nat, l: nat, j: nat | Matched(w, k, j) && Matched(w, l, j) ensures k == l {
      MatchedOnce(w, k, l, j);
    }
    forall k: nat, j: nat | Matched(w, k, j) ensures Legal(w, k, j) {
      var i := MatchedPair(w, k, j);
    }
    forall k: nat, j: nat | Legal(w, k, j) ensures Served(w, k, j) {
      LegalIsServed(w, k, j);
    }
    forall k: nat, j: nat ensures Fate(w, k) == Advanced(j) <==> Unrivalled(w, k, j) {
      AdvancedExactly(w, k, j);
    }
    forall k: nat ensures Fate(w, k) == Created <==> forall j: nat :: !Legal(w, k, j) {
      CreatedExactly(w, k);
    }
  }

  /** Every cycle of every run associates its observations so. */
  lemma {:induction false} RunAssociates(run: Run, f: Frame, c: Config, g: Geometry)
    requires Opens(After(run, c, g), f.stamp, c)
    ensures Associates(SceneOf(After(run, c, g), f, c, g))
  {
    RunIds(run, c, g);
    OpenedIds(After(run, c, g), f, c);
    SceneAssociates(SceneOf(After(run, c, g), f, c, g));
  }
}
