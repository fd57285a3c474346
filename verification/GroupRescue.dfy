/**
 When component lineage rescues a group that no measurement matches: exactly when one lineage observation
 settles it, and what that observation must show.
 */
module GroupRescue {
  import opened Prelude
  import opened GroupAssociation

  /** No pair of the group, or of the history, is plausible. */
  ghost predicate FreeGroup(d: FrameData, c: Config, g: nat)
    requires FrameOk(d, c)
  {
    forall h: nat :: !PlausibleAt(d, c, g, h)
  }

  ghost predicate FreeHistory(d: FrameData, c: Config, h: nat)
    requires FrameOk(d, c)
  {
    forall g: nat :: !PlausibleAt(d, c, g, h)
  }

  /**
   Observation k calls for group g and history h: its seed names the group, the history alone remembers its
   component, neither has a plausible pair, and the height of the two is steady where it counts.
   */
  ghost predicate Calls(d: FrameData, c: Config, k: nat, g: nat, h: nat)
    requires FrameOk(d, c)
  {
    && k < |d.observations| && g < |d.groups| && h < |d.provenance| && d.observations[k].usable
    && OnlySeed(d.groups, d.observations[k].seedGroupId, g)
    && OnlyMemory(d.provenance, d.observations[k].previousStamp, d.observations[k].previousComponent, h)
    && Usable(d.groups[g]) && FreeGroup(d, c, g) && FreeHistory(d, c, h)
    && Rescuable(d.relations[g][h], d.groups[g].continuityOnly, c)
  }

  /** The observation is newer than k: from a source frame fewer frames ago. */
  predicate NewerSource(d: FrameData, k: nat, than: nat)
    requires k < |d.observations| && than < |d.observations|
  {
    d.observations[k].offset < d.observations[than].offset
  }

  /** Of all calls for the group, observation k is the newest one, and the first of those. */
  ghost predicate NewestCall(d: FrameData, c: Config, k: nat, g: nat, h: nat)
    requires FrameOk(d, c)
  {
    && Calls(d, c, k, g, h)
    && forall k': nat, h': nat :: k' != k && Calls(d, c, k', g, h') ==> NewerSource(d, k, k') || (!NewerSource(d, k', k) && k < k')
  }

  /** Every other call for the group is for the same history and older, and no other group's newest call is for that history. */
  ghost predicate SettlingCall(d: FrameData, c: Config, k: nat, g: nat, h: nat)
    requires FrameOk(d, c)
  {
    && Calls(d, c, k, g, h)
    && (forall k': nat, h': nat :: k' != k && Calls(d, c, k', g, h') ==> h' == h && NewerSource(d, k, k'))
    && (forall g': nat, k': nat :: g' != g ==> !NewestCall(d, c, k', g', h))
  }

  // ---------------------------------------------------------------- proposals are calls

  ghost predicate Frame(d: FrameData, c: Config, pairs: seq<Pair>, ph: Phases, from: seq<nat>)
    requires FrameOk(d, c)
  {
    && WholeTable(d.groups, d.relations, |d.provenance|, c, pairs)
    && PhasesOk(d.groups, pairs, |d.provenance|, c.ambiguityCostMargin, ph)
    && Listed(d, c, pairs, ph.exact, ph.exactAmbiguous, |d.observations|, ph.proposals, from)
  }

  /** The table pair of a usable group and a history. */
  lemma PairOf(d: FrameData, c: Config, pairs: seq<Pair>, g: nat, h: nat) returns (i: nat)
    requires FrameOk(d, c) && WholeTable(d.groups, d.relations, |d.provenance|, c, pairs)
    requires g < |d.groups| && h < |d.provenance| && Usable(d.groups[g])
    ensures i < |pairs| && pairs[i].group == g && pairs[i].history == h
  {
    var p := EvaluateAt(d.groups, d.relations, |d.provenance|, c, g, h);
    assert p in pairs;
    i :| 0 <= i < |pairs| && pairs[i] == p;
  }

  lemma FeasibleIsPlausible(d: FrameData, c: Config, pairs: seq<Pair>, g: nat, h: nat)
    requires FrameOk(d, c) && WholeTable(d.groups, d.relations, |d.provenance|, c, pairs)
    ensures HasFeasible(pairs, OfGroup, g) <==> !FreeGroup(d, c, g)
    ensures HasFeasible(pairs, OfHistory, h) <==> !FreeHistory(d, c, h)
  {
    forall i | 0 <= i < |pairs| && pairs[i].feasible ensures PlausibleAt(d, c, pairs[i].group, pairs[i].history) {
      TablePair(d, c, pairs, i);
    }
    forall x: nat, y: nat | PlausibleAt(d, c, x, y) ensures HasFeasible(pairs, OfGroup, x) && HasFeasible(pairs, OfHistory, y) {
      var i := PairOf(d, c, pairs, x, y);
      TablePair(d, c, pairs, i);
      assert On(pairs[i], OfGroup, x) && On(pairs[i], OfHistory, y);
    }
  }

  lemma RejectedIsRescuable(d: FrameData, c: Config, pairs: seq<Pair>, g: nat, h: nat)
    requires FrameOk(d, c) && WholeTable(d.groups, d.relations, |d.provenance|, c, pairs) && g < |d.groups| && h < |d.provenance|
    ensures var r, k := d.relations[g][h], d.groups[g].continuityOnly;
            RejectedPair(pairs, g, h) && LineageVertical(r, k, c) <==> Usable(d.groups[g]) && Rescuable(r, k, c)
  {
    forall i | 0 <= i < |pairs| && pairs[i].group == g && pairs[i].history == h
      ensures Usable(d.groups[g])
      ensures pairs[i].reject in {XyGate, ExtentGate} && LineageVertical(d.relations[g][h], d.groups[g].continuityOnly, c) <==>
                Rescuable(d.relations[g][h], d.groups[g].continuityOnly, c)
    {
      TablePair(d, c, pairs, i);
      assert Entry(d.groups, d.relations, |d.provenance|, c, |d.groups|, 0, pairs[i]);
    }
    if Usable(d.groups[g]) {
      var i := PairOf(d, c, pairs, g, h);
    }
  }

  /** Without an exact match and unambiguous means without a feasible pair. */
  lemma UnmatchedIsFree(pairs: seq<Pair>, g: nat, margin: real)
    ensures ExactMatch(pairs, g, margin) >= 0 ==> HasFeasible(pairs, OfGroup, g)
  {}

  lemma BehindCalls(d: FrameData, c: Config, pairs: seq<Pair>, ph: Phases, from: seq<nat>, k: nat, p: Proposal)
    requires FrameOk(d, c) && Frame(d, c, pairs, ph, from)
    ensures Behind(d, c, pairs, ph.exact, ph.exactAmbiguous, k, p) <==>
              Calls(d, c, k, p.group, p.history) && p.offset == d.observations[k].offset
  {
    if k < |d.observations| && p.group < |d.groups| && p.history < |d.provenance| {
      FeasibleIsPlausible(d, c, pairs, p.group, p.history);
      RejectedIsRescuable(d, c, pairs, p.group, p.history);
      UnmatchedIsFree(pairs, p.group, c.ambiguityCostMargin);
      assert ph.exact[p.group] == ExactMatch(pairs, p.group, c.ambiguityCostMargin);
    }
  }

  /** Proposal i is the call of observation from[i]. */
  lemma ProposalCalls(d: FrameData, c: Config, pairs: seq<Pair>, ph: Phases, from: seq<nat>, i: nat)
    requires FrameOk(d, c) && Frame(d, c, pairs, ph, from) && i < |ph.proposals|
    ensures Calls(d, c, from[i], ph.proposals[i].group, ph.proposals[i].history)
    ensures ph.proposals[i].offset == d.observations[from[i]].offset
  {
    BehindCalls(d, c, pairs, ph, from, from[i], ph.proposals[i]);
  }

  lemma CallIsOne(d: FrameData, c: Config, k: nat, g: nat, h: nat, g': nat, h': nat)
    requires FrameOk(d, c) && Calls(d, c, k, g, h) && Calls(d, c, k, g', h')
    ensures g == g' && h == h'
  {}

  /** Every call is proposed. */
  lemma CallIsProposed(d: FrameData, c: Config, pairs: seq<Pair>, ph: Phases, from: seq<nat>, k: nat, g: nat, h: nat) returns (i: nat)
    requires FrameOk(d, c) && Frame(d, c, pairs, ph, from) && Calls(d, c, k, g, h)
    ensures i < |ph.proposals| && from[i] == k && ph.proposals[i] == Proposal(g, h, d.observations[k].offset)
  {
    BehindCalls(d, c, pairs, ph, from, k, Proposal(g, h, d.observations[k].offset));
    assert k in from;
    i :| 0 <= i < |from| && from[i] == k;
    ProposalCalls(d, c, pairs, ph, from, i);
    CallIsOne(d, c, k, g, h, ph.proposals[i].group, ph.proposals[i].history);
  }

  // ---------------------------------------------------------------- the selection

  lemma OrderKept(from: seq<nat>, i: nat, j: nat)
    requires forall x, y :: 0 <= x < y < |from| ==> from[x] < from[y]
    requires i < |from| && j < |from|
    ensures (i < j <==> from[i] < from[j]) && (i == j <==> from[i] == from[j])
  {}

  /** The selected proposal of a group is its newest call, and there is one if there is any call. */
  lemma SelectedIsNewest(d: FrameData, c: Config, pairs: seq<Pair>, ph: Phases, from: seq<nat>, g: nat)
    requires FrameOk(d, c) && Frame(d, c, pairs, ph, from) && g < |d.groups|
    ensures ph.selected[g] >= 0 ==> NewestCall(d, c, from[ph.selected[g]], g, ph.proposals[ph.selected[g]].history)
    ensures ph.selected[g] < 0 ==> forall k: nat, h: nat :: !Calls(d, c, k, g, h)
  {
    var i := ph.selected[g];
    if i >= 0 {
      ProposalCalls(d, c, pairs, ph, from, i);
      forall k: nat, h: nat | k != from[i] && Calls(d, c, k, g, h) ensures NewerSource(d, from[i], k) || (!NewerSource(d, k, from[i]) && from[i] < k) {
        var j := CallIsProposed(d, c, pairs, ph, from, k, g, h);
        OrderKept(from, i, j);
      }
    } else {
      forall k, h ensures !Calls(d, c, k, g, h) {
        if Calls(d, c, k, g, h) {
          var j := CallIsProposed(d, c, pairs, ph, from, k, g, h);
        }
      }
    }
  }

  lemma NewestCallIsOne(d: FrameData, c: Config, g: nat, k: nat, h: nat, k': nat, h': nat)
    requires FrameOk(d, c) && NewestCall(d, c, k, g, h) && NewestCall(d, c, k', g, h')
    ensures k == k' && h == h'
  {
    CallIsOne(d, c, k, g, h, g, h);
    if k == k' {
      CallIsOne(d, c, k, g, h, g, h');
    }
  }

  /** Another group selected the history of this group's selection exactly when its newest call is for it. */
  lemma ContestedByCall(d: FrameData, c: Config, pairs: seq<Pair>, ph: Phases, from: seq<nat>, g: nat)
    requires FrameOk(d, c) && Frame(d, c, pairs, ph, from) && g < |d.groups| && ph.selected[g] >= 0
    ensures var h := ph.proposals[ph.selected[g]].history;
            Contested(ph.proposals, ph.selected, g) <==> exists g': nat, k': nat :: g' != g && NewestCall(d, c, k', g', h)
  {
    var h := ph.proposals[ph.selected[g]].history;
    if Contested(ph.proposals, ph.selected, g) {
      var other: nat, h' :| other != g && Claims(ph.proposals, ph.selected, g, h') && Claims(ph.proposals, ph.selected, other, h');
      SelectedIsNewest(d, c, pairs, ph, from, other);
      assert NewestCall(d, c, from[ph.selected[other]], other, h);
    }
    forall g': nat, k': nat | g' != g && NewestCall(d, c, k', g', h) ensures Contested(ph.proposals, ph.selected, g) {
      SelectedIsNewest(d, c, pairs, ph, from, g');
      assert Calls(d, c, k', g', h);
      NewestCallIsOne(d, c, g', k', h, from[ph.selected[g']], ph.proposals[ph.selected[g']].history);
      assert Claims(ph.proposals, ph.selected, g, h) && Claims(ph.proposals, ph.selected, g', h);
    }
  }

  lemma SettledByCall(d: FrameData, c: Config, pairs: seq<Pair>, ph: Phases, from: seq<nat>, g: nat)
    requires FrameOk(d, c) && Frame(d, c, pairs, ph, from) && g < |d.groups| && ph.selected[g] >= 0
    ensures var i := ph.selected[g];
            Settled(ph.proposals, g, i) <==>
              forall k: nat, h: nat :: k != from[i] && Calls(d, c, k, g, h) ==> h == ph.proposals[i].history && NewerSource(d, from[i], k)
  {
    var i := ph.selected[g];
    ProposalCalls(d, c, pairs, ph, from, i);
    if Settled(ph.proposals, g, i) {
      forall k: nat, h: nat | k != from[i] && Calls(d, c, k, g, h) ensures h == ph.proposals[i].history && NewerSource(d, from[i], k) {
        var j := CallIsProposed(d, c, pairs, ph, from, k, g, h);
      }
    }
    if forall k: nat, h: nat :: k != from[i] && Calls(d, c, k, g, h) ==> h == ph.proposals[i].history && NewerSource(d, from[i], k) {
      forall q | 0 <= q < |ph.proposals| && q != i && ph.proposals[q].group == g
        ensures ph.proposals[q].history == ph.proposals[i].history && ph.proposals[q].offset > ph.proposals[i].offset
      {
        ProposalCalls(d, c, pairs, ph, from, q);
        OrderKept(from, i, q);
      }
    }
  }

  /** A call that settles its group is the selected one. */
  lemma SettlingIsSelected(d: FrameData, c: Config, pairs: seq<Pair>, ph: Phases, from: seq<nat>, k: nat, g: nat, h: nat)
    requires FrameOk(d, c) && Frame(d, c, pairs, ph, from) && SettlingCall(d, c, k, g, h)
    ensures ph.selected[g] >= 0 && from[ph.selected[g]] == k && ph.proposals[ph.selected[g]].history == h
  {
    SelectedIsNewest(d, c, pairs, ph, from, g);
    assert Calls(d, c, k, g, h);
    assert NewestCall(d, c, k, g, h);
    NewestCallIsOne(d, c, g, k, h, from[ph.selected[g]], ph.proposals[ph.selected[g]].history);
  }

  /**
   For the data and phases of every frame: a group is rescued if and only if some lineage observation settles it, and
   it is then matched to that observation's history, or to none when its height is continuity-only and the gate fails.
   */
  lemma RescuedExactly(d: FrameData, c: Config, pairs: seq<Pair>, ph: Phases, from: seq<nat>, verticalHolds: (nat, nat) -> bool, g: nat)
    requires FrameOk(d, c) && Frame(d, c, pairs, ph, from) && g < |d.groups|
    ensures var o := Decide(d.groups, ph, verticalHolds, g);
            && (o.lineage <==> exists k: nat, h: nat :: SettlingCall(d, c, k, g, h))
            && (forall k: nat, h: nat :: SettlingCall(d, c, k, g, h) ==>
                  o == Outcome(if d.groups[g].continuityOnly && !verticalHolds(g, h) then -1 else h, true, false))
  {
    var i := ph.selected[g];
    if i >= 0 {
      var h := ph.proposals[i].history;
      ProposalCalls(d, c, pairs, ph, from, i);
      SettledByCall(d, c, pairs, ph, from, g);
      ContestedByCall(d, c, pairs, ph, from, g);
      CallIsFree(d, c, pairs, ph, from, from[i], g, h);
      if Settled(ph.proposals, g, i) && !Contested(ph.proposals, ph.selected, g) {
        assert SettlingCall(d, c, from[i], g, h);
      }
    }
    forall k: nat, h: nat | SettlingCall(d, c, k, g, h)
      ensures Decide(d.groups, ph, verticalHolds, g) ==
                Outcome(if d.groups[g].continuityOnly && !verticalHolds(g, h) then -1 else h, true, false)
    {
      SettlingIsSelected(d, c, pairs, ph, from, k, g, h);
    }
  }

  lemma CallIsFree(d: FrameData, c: Config, pairs: seq<Pair>, ph: Phases, from: seq<nat>, k: nat, g: nat, h: nat)
    requires FrameOk(d, c) && Frame(d, c, pairs, ph, from) && Calls(d, c, k, g, h)
    ensures !ph.exactAmbiguous[g]
  {
    FeasibleIsPlausible(d, c, pairs, g, h);
  }
}
