/**
 The jump gate on whole runs: a pending jump stands for an unbroken streak of updates that asked for it.
 */
module BottomGate {
  import opened Prelude
  import opened BottomAccumulation
  import opened BottomFusion
  import opened BottomRuns
  import opened Positions

  /** An absolute measurement below the previous output is accepted at once. */
  predicate Drops(sel: Selected, previous: Span) { sel.source == DirectTop && sel.span.bottom < previous.bottom }

  /** A processed update of the track whose candidate is a large jump away from a comparable previous output that waits for confirmation. */
  ghost predicate Asks(c: Config, s: State, o: Observation, track: nat, source: Source, first: Span) {
    && Admit(c, s, o) == Proceed && o.trackId == track
    && var (t, sel) := Prepared(c, s, o);
       && sel.Some? && sel.value.source == source && Comparable(t, o)
       && Jump(sel.value.span, Previous(t, o)) > c.softJump && !Drops(sel.value, Previous(t, o))
       && (source == DirectTop || Near(c, first, sel.value.span))
  }

  /**
   A processed update that says nothing about the pending jump: no source at all, or a RECENT_STABLE
   hold next to the previous output, while the last positive ask is recent enough; or the previous
   output cannot be compared because a changed authority skipped the lost-centre check.
   */
  ghost predicate Idle(c: Config, s: State, o: Observation) {
    var (t, sel) := Prepared(c, s, o);
    if sel.Some? && !Comparable(t, o) then CentreLost(s, o) && AuthorityChanged(s, o)
    else
      && o.stamp - s.pending.lastPositive <= c.stableHold
      && (sel.Some? ==> sel.value.source == RecentStable && Jump(sel.value.span, Previous(t, o)) <= c.directJump)
  }

  /** A processed update of the track that the pending jump has already seen. */
  ghost predicate Continues(c: Config, s: State, o: Observation, track: nat) {
    Admit(c, s, o) == Proceed && o.trackId == track && !TrackChanged(s, o)
  }

  ghost predicate Rests(c: Config, s: State, o: Observation, track: nat) {
    || Admit(c, s, o) == Ignored
    || (Admit(c, s, o) == Repeated && o.trackId == track)
    || (Continues(c, s, o, track) && Idle(c, s, o))
  }

  /** The positions of the run whose update asks for the jump of that source on that track. */
  ghost function Asking(c: Config, run: seq<Observation>, track: nat, source: Source, first: Span): nat -> bool {
    (k: nat) => k < |run| && Asks(c, At(c, run, k), run[k], track, source, first)
  }

  ghost function Resting(c: Config, run: seq<Observation>, track: nat): nat -> bool {
    (k: nat) => k < |run| && Rests(c, At(c, run, k), run[k], track)
  }

  ghost predicate ContinuesAt(c: Config, run: seq<Observation>, k: nat, track: nat) {
    k < |run| && Continues(c, At(c, run, k), run[k], track)
  }

  ghost predicate FirstAsked(c: Config, run: seq<Observation>, k: nat, first: Span) {
    && k < |run| && Prepared(c, At(c, run, k), run[k]).1.Some?
    && Prepared(c, At(c, run, k), run[k]).1.value.span == first
  }

  /**
   ks are the asks of a streak that reaches the end of the run: all of one track and one source, the
   first of them for the span `first`, with only resting updates between and behind them.
   */
  ghost predicate Streaks(c: Config, run: seq<Observation>, ks: seq<nat>, track: nat, source: Source, first: Span) {
    && |ks| > 0 && Streak(ks, |run|, Asking(c, run, track, source, first), Resting(c, run, track))
    && FirstAsked(c, run, ks[0], first)
  }

  /** The pending count is the length of a streak, and the last positive stamp that of its last ask. */
  ghost predicate EarnedBy(c: Config, run: seq<Observation>, ks: seq<nat>, s: State) {
    && s.track.Some? && |ks| == s.pending.count
    && Streaks(c, run, ks, s.track.value.0, s.pending.source, s.pending.span)
  }

  ghost predicate PendingEarned(c: Config, run: seq<Observation>, s: State) {
    s.pending.active ==> s.final.Some? && s.pending.count < c.confirmFrames && exists ks: seq<nat> :: EarnedBy(c, run, ks, s)
  }

  /** What was asked stays asked when the run goes on. */
  lemma StreakLonger(c: Config, run: seq<Observation>, o: Observation, ks: seq<nat>, track: nat, source: Source, first: Span)
    requires Streaks(c, run, ks, track, source, first)
    ensures Streak(ks, |run|, Asking(c, run + [o], track, source, first), Resting(c, run + [o], track))
    ensures FirstAsked(c, run + [o], ks[0], first)
  {
    forall k: nat | k < |run| ensures At(c, run + [o], k) == At(c, run, k) {
      AtLater(c, run, o, k);
    }
    StreakLater(ks, |run|, Asking(c, run, track, source, first), Resting(c, run, track),
                Asking(c, run + [o], track, source, first), Resting(c, run + [o], track));
  }

  lemma {:induction false} StreaksRest(c: Config, run: seq<Observation>, o: Observation, ks: seq<nat>, track: nat, source: Source, first: Span)
    requires Streaks(c, run, ks, track, source, first) && Rests(c, After(c, run), o, track)
    ensures Streaks(c, run + [o], ks, track, source, first)
  {
    StreakLonger(c, run, o, ks, track, source, first);
    assert Resting(c, run + [o], track)(|run|) by {
      AtEnd(c, run, o);
    }
    StreakRests(ks, |run|, Asking(c, run + [o], track, source, first), Resting(c, run + [o], track));
  }

  lemma {:induction false} StreaksGrow(c: Config, run: seq<Observation>, o: Observation, ks: seq<nat>, track: nat, source: Source, first: Span)
    requires Streaks(c, run, ks, track, source, first) && Asks(c, After(c, run), o, track, source, first)
    ensures Streaks(c, run + [o], ks + [|run|], track, source, first)
  {
    StreakLonger(c, run, o, ks, track, source, first);
    assert Asking(c, run + [o], track, source, first)(|run|) by {
      AtEnd(c, run, o);
    }
    StreakGrows(ks, |run|, Asking(c, run + [o], track, source, first), Resting(c, run + [o], track));
  }

  lemma NearSelf(c: Config, x: Span)
    requires c.confirmTolerance >= 0.0
    ensures Near(c, x, x)
  {}

  lemma {:induction false} StreaksStart(c: Config, run: seq<Observation>, o: Observation, source: Source, first: Span)
    requires Asks(c, After(c, run), o, o.trackId, source, first) && Prepared(c, After(c, run), o).1 == Some(Selected(source, first))
    ensures Streaks(c, run + [o], [|run|], o.trackId, source, first)
  {
    AtEnd(c, run, o);
    assert FirstAsked(c, run + [o], |run|, first);
    assert Asking(c, run + [o], o.trackId, source, first)(|run|);
  }

  lemma SameAsks(c: Config, s: State, o: Observation, sel: Selected)
    requires Asks(c, s, o, o.trackId, sel.source, sel.span) && Prepared(c, s, o).1 == Some(sel) && SamePending(c, s.pending, sel)
    ensures Asks(c, s, o, o.trackId, s.pending.source, s.pending.span)
  {}

  lemma AgainEarned(c: Config, run: seq<Observation>, o: Observation, s: State) returns (ks: seq<nat>)
    requires s == After(c, run) && PendingEarned(c, run, s) && s.pending.active && s.track.Some?
    requires Asks(c, s, o, s.track.value.0, s.pending.source, s.pending.span)
    ensures |ks| == s.pending.count + 1 && ks[|ks| - 1] == |run|
    ensures Streaks(c, run + [o], ks, s.track.value.0, s.pending.source, s.pending.span)
  {
    var past: seq<nat> :| EarnedBy(c, run, past, s);
    StreaksGrow(c, run, o, past, s.track.value.0, s.pending.source, s.pending.span);
    ks := past + [|run|];
  }

  /** Proposing extends the streak, or starts one, with the present update. */
  lemma ProposeEarned(c: Config, run: seq<Observation>, o: Observation, s: State, sel: Selected) returns (ks: seq<nat>)
    requires s == After(c, run) && PendingEarned(c, run, s) && s.track.Some? && s.track.value.0 == o.trackId
    requires Asks(c, s, o, o.trackId, sel.source, sel.span) && Prepared(c, s, o).1 == Some(sel)
    ensures var q := Propose(c, s.pending, o.stamp, sel);
            && |ks| == q.count > 0 && ks[|ks| - 1] == |run|
            && Streaks(c, run + [o], ks, o.trackId, q.source, q.span)
  {
    if SamePending(c, s.pending, sel) {
      SameAsks(c, s, o, sel);
      ks := AgainEarned(c, run, o, s);
    } else {
      StreaksStart(c, run, o, sel.source, sel.span);
      ks := [|run|];
    }
  }

  lemma CandidateAsks(c: Config, s: State, o: Observation)
    requires Admit(c, s, o) == Proceed && Prepared(c, s, o).1.Some?
    requires var (t, sel) := Prepared(c, s, o);
             Comparable(t, o) && Jump(sel.value.span, Previous(t, o)) > c.softJump && !Drops(sel.value, Previous(t, o))
    ensures var sel := Prepared(c, s, o).1.value; Asks(c, s, o, o.trackId, sel.source, sel.span)
    ensures !TrackChanged(s, o)
  {
    NearSelf(c, Prepared(c, s, o).1.value.span);
    PreparedKeeps(c, s, o);
  }

  /** The gate leaves an active pending jump alone, clears it, or proposes with a large candidate. */
  lemma GatePending(c: Config, s: State, o: Observation, sel: Selected)
    ensures var p := Gate(c, s, o, sel).0.pending;
            || !p.active
            || (p == s.pending && !Comparable(s, o))
            || (&& p == s.pending && Comparable(s, o) && sel.source == RecentStable
                && Jump(sel.span, Previous(s, o)) <= c.directJump && !GapTooLong(c, p, o.stamp))
            || (&& Comparable(s, o) && Jump(sel.span, Previous(s, o)) > c.softJump && !Drops(sel, Previous(s, o))
                && p == Propose(c, s.pending, o.stamp, sel) && p.count < c.confirmFrames)
  {}

  lemma PublishKeeps(s: State, o: Observation, absolute: bool, out: Output)
    ensures var t := Publish(s, o, absolute, out).0; t.pending == s.pending && t.track == s.track && t.final.Some?
  {}

  /** The pending jump behind a processed update, when active: proposed by this update, or one it says nothing about. */
  ghost predicate Proposed(c: Config, s: State, o: Observation, p: Pending) {
    && Prepared(c, s, o).1.Some? && s.track.Some? && s.track.value.0 == o.trackId
    && var sel := Prepared(c, s, o).1.value;
       Asks(c, s, o, o.trackId, sel.source, sel.span) && p == Propose(c, s.pending, o.stamp, sel) && p.count < c.confirmFrames
  }

  ghost predicate Kept(c: Config, s: State, o: Observation, p: Pending) {
    p == s.pending && Continues(c, s, o, o.trackId) && Idle(c, s, o)
  }

  lemma ProcessPending(c: Config, s: State, o: Observation)
    requires Admit(c, s, o) == Proceed && Process(c, s, o).0.pending.active && (s.pending.active ==> s.final.Some?)
    ensures Proposed(c, s, o, Process(c, s, o).0.pending) || Kept(c, s, o, Process(c, s, o).0.pending)
  {
    var (t, sel) := Prepared(c, s, o);
    PreparedKeeps(c, s, o);
    if sel.Some? {
      GatePending(c, t, o, sel.value);
      GateKeeps(c, t, o, sel.value);
      PublishKeeps(Gate(c, t, o, sel.value).0, o, sel.value.source == DirectTop, Gate(c, t, o, sel.value).1);
      if Comparable(t, o) && Jump(sel.value.span, Previous(t, o)) > c.softJump && !Drops(sel.value, Previous(t, o)) {
        CandidateAsks(c, s, o);
      }
    }
  }

  lemma ProcessKeeps(c: Config, s: State, o: Observation)
    requires Admit(c, s, o) == Proceed
    ensures var t := Process(c, s, o).0;
            t.track.Some? && t.track.value.0 == o.trackId && (s.final.Some? && !TrackChanged(s, o) ==> t.final.Some?)
    ensures Prepared(c, s, o).1.Some? ==> Process(c, s, o).0.final.Some?
  {
    PreparedKeeps(c, s, o);
    var (t, sel) := Prepared(c, s, o);
    if sel.Some? {
      GateKeeps(c, t, o, sel.value);
      var (u, out) := Gate(c, t, o, sel.value);
      PublishKeeps(u, o, sel.value.source == DirectTop, out);
    }
  }

  /** The streak of a pending jump that this update leaves alone. */
  lemma {:induction false} RestsEarned(c: Config, run: seq<Observation>, o: Observation, s: State, t: State)
    requires s == After(c, run) && PendingEarned(c, run, s) && s.pending.active
    requires t.pending == s.pending && t.final.Some?
    requires s.track.Some? ==> t.track.Some? && t.track.value.0 == s.track.value.0 && Rests(c, s, o, s.track.value.0)
    ensures PendingEarned(c, run + [o], t)
  {
    var ks: seq<nat> :| EarnedBy(c, run, ks, s);
    StreaksRest(c, run, o, ks, s.track.value.0, s.pending.source, s.pending.span);
    assert EarnedBy(c, run + [o], ks, t);
  }

  lemma {:induction false} ProcessEarned(c: Config, run: seq<Observation>, o: Observation, s: State)
    requires s == After(c, run) && PendingEarned(c, run, s) && Admit(c, s, o) == Proceed
    ensures PendingEarned(c, run + [o], Process(c, s, o).0)
  {
    var t := Process(c, s, o).0;
    if t.pending.active {
      ProcessPending(c, s, o);
      ProcessKeeps(c, s, o);
      if Proposed(c, s, o, t.pending) {
        var ks := ProposeEarned(c, run, o, s, Prepared(c, s, o).1.value);
        assert EarnedBy(c, run + [o], ks, t);
      } else {
        RestsEarned(c, run, o, s, t);
      }
    }
  }

  lemma {:induction false} StepEarned(c: Config, run: seq<Observation>, o: Observation)
    requires PendingEarned(c, run, After(c, run))
    ensures PendingEarned(c, run + [o], Step(c, After(c, run), o).0)
  {
    var s := After(c, run);
    match Admit(c, s, o)
    case Refused =>
    case Lost =>
    case Proceed => ProcessEarned(c, run, o, s);
    case Ignored =>
      if s.pending.active {
        RestsEarned(c, run, o, s, s);
      }
    case Repeated =>
      if s.pending.active {
        RestsEarned(c, run, o, s, s);
      }
  }

  /** On every run the pending count is the length of an unbroken streak of asks, shorter than confirmFrames. */
  lemma {:induction false} RunEarned(c: Config, run: seq<Observation>)
    ensures PendingEarned(c, run, After(c, run))
  {
    if |run| > 0 {
      var front, o := run[..|run| - 1], run[|run| - 1];
      RunEarned(c, front);
      StepEarned(c, front, o);
      assert front + [o] == run;
    }
  }

  /** One gate step raises the bottom past the soft limit only by confirming a pending jump. */
  lemma RaiseIsConfirmed(c: Config, s: State, o: Observation, sel: Selected)
    requires ValidConfig(c) && Comparable(s, o)
    requires Gate(c, s, o, sel).1.span.bottom > Previous(s, o).bottom + c.softJump
    ensures Jump(sel.span, Previous(s, o)) > c.softJump && !Drops(sel, Previous(s, o))
    ensures var p := Propose(c, s.pending, o.stamp, sel);
            && p.count >= c.confirmFrames
            && Gate(c, s, o, sel).1 == Output(sel.source, if sel.source == DirectTop then sel.span else p.span, false)
  {
    if Jump(sel.span, Previous(s, o)) <= c.softJump {
      MixMoves(c.softAlpha, sel.span, Previous(s, o), c.softJump);
    }
  }

  /** A large downward absolute measurement is published at once, exactly as measured. */
  lemma DownwardIsImmediate(c: Config, s: State, o: Observation)
    requires Admit(c, s, o) == Proceed && Select(c, Accumulated(c, Entered(s, o), o), o).Some?
    requires Select(c, Accumulated(c, Entered(s, o), o), o).value.source == DirectTop
    requires var t := Prepared(c, s, o).0;
             && Comparable(t, o) && o.top.Some? && o.frozen.Some?
             && o.top.value - o.frozen.value < Previous(t, o).bottom - c.softJump
    ensures Step(c, s, o).1.output == Some(Output(DirectTop, Span(o.top.value - o.frozen.value, o.top.value), false))
  {
    MeasuredIsBest(o, DirectTop);
  }
}
