/**
 How long a pending jump waits: the hold time counts from the last ask of the absolute source, and this
 bounds the pauses between the asks of every source while the clock does not run backwards.
 */
module BottomHold {
  import opened Prelude
  import opened BottomAccumulation
  import opened BottomFusion
  import opened BottomRuns
  import opened BottomGate
  import opened Positions

  // ---------------------------------------------------------------- the stamp of the last absolute ask

  /** The absolute source asks for a large upward jump. */
  ghost predicate AbsoluteAsk(c: Config, s: State, o: Observation) {
    && Admit(c, s, o) == Proceed
    && var (t, sel) := Prepared(c, s, o);
       && sel.Some? && sel.value.source == DirectTop && Comparable(t, o)
       && Jump(sel.value.span, Previous(t, o)) > c.softJump && !Drops(sel.value, Previous(t, o))
  }

  /** The update drops everything remembered about the track. */
  predicate Forgets(c: Config, s: State, o: Observation) {
    || Admit(c, s, o) == Refused || Admit(c, s, o) == Lost
    || (Admit(c, s, o) == Proceed && TrackChanged(s, o))
  }

  /** The position of the last absolute ask that is still remembered. */
  ghost function LastAbsolute(c: Config, run: seq<Observation>): Option<nat> {
    if |run| == 0 then None
    else
      var k := |run| - 1;
      if Forgets(c, After(c, run[..k]), run[k]) then None
      else if AbsoluteAsk(c, After(c, run[..k]), run[k]) then Some(k)
      else LastAbsolute(c, run[..k])
  }

  lemma GatePositive(c: Config, s: State, o: Observation, sel: Selected)
    ensures var p := Gate(c, s, o, sel).0.pending;
            if Comparable(s, o) && Jump(sel.span, Previous(s, o)) > c.softJump && sel.source == DirectTop && !Drops(sel, Previous(s, o))
            then ValidConfig(c) ==> p.lastPositive == o.stamp else p.lastPositive == s.pending.lastPositive
  {}

  lemma ForgetsPositive(c: Config, s: State, o: Observation)
    requires Forgets(c, s, o)
    ensures Step(c, s, o).0.pending.lastPositive == 0.0
  {
    if Admit(c, s, o) == Proceed {
      ProcessPositive(c, s, o);
    }
  }

  lemma ProcessPositive(c: Config, s: State, o: Observation)
    requires Admit(c, s, o) == Proceed
    ensures Process(c, s, o).0.pending.lastPositive ==
            if AbsoluteAsk(c, s, o) then o.stamp else Entered(s, o).pending.lastPositive
  {
    PreparedKeeps(c, s, o);
    var (t, sel) := Prepared(c, s, o);
    if sel.Some? {
      GatePositive(c, t, o, sel.value);
      var (u, out) := Gate(c, t, o, sel.value);
      PublishKeeps(u, o, sel.value.source == DirectTop, out);
    }
  }

  /** The stamp changes only when the memory goes or the absolute source asks. */
  lemma StepPositive(c: Config, s: State, o: Observation)
    ensures Step(c, s, o).0.pending.lastPositive ==
            if Forgets(c, s, o) then 0.0 else if AbsoluteAsk(c, s, o) then o.stamp else s.pending.lastPositive
  {
    if Forgets(c, s, o) {
      ForgetsPositive(c, s, o);
    } else if Admit(c, s, o) == Proceed {
      ProcessPositive(c, s, o);
    }
  }

  /** On every run the hold time counts from the last remembered absolute ask, or from zero when there is none. */
  lemma {:induction false} RunPositive(c: Config, run: seq<Observation>)
    ensures var q := LastAbsolute(c, run);
            && (q.Some? ==> q.value < |run|)
            && After(c, run).pending.lastPositive == if q.Some? then run[q.value].stamp else 0.0
  {
    if |run| > 0 {
      var k := |run| - 1;
      RunPositive(c, run[..k]);
      StepPositive(c, After(c, run[..k]), run[k]);
    }
  }

  // ---------------------------------------------------------------- the clock

  /** Nothing is remembered before the first result, and no stamp is negative. */
  predicate Started(s: State) {
    s.lastStamp >= 0.0 && (s.lastResult.None? ==> s.pending.lastPositive == 0.0)
  }

  lemma StepStarted(c: Config, s: State, o: Observation)
    requires Started(s)
    ensures Started(Step(c, s, o).0)
    ensures Admit(c, s, o) == Proceed ==> Step(c, s, o).0.lastStamp == o.stamp
  {
    if Admit(c, s, o) == Proceed {
      ProcessKeepsStore(c, s, o);
    }
  }

  lemma {:induction false} RunStarted(c: Config, run: seq<Observation>)
    ensures Started(After(c, run))
  {
    if |run| > 0 {
      RunStarted(c, run[..|run| - 1]);
      StepStarted(c, After(c, run[..|run| - 1]), run[|run| - 1]);
    }
  }

  /** The clock is not behind the last absolute ask. */
  predicate InOrder(s: State) { s.pending.lastPositive <= s.lastStamp }

  /** A changed authority makes the update pass although its stamp lies before the last one. */
  predicate RollsBack(c: Config, s: State, o: Observation) {
    Admit(c, s, o) == Proceed && !TrackChanged(s, o) && AuthorityChanged(s, o) && o.stamp < s.lastStamp
  }

  /** Since the track was entered, and since its last absolute ask, a changed authority has rolled the clock back. */
  ghost predicate RolledBack(c: Config, run: seq<Observation>) {
    |run| > 0 &&
    var s, o := After(c, run[..|run| - 1]), run[|run| - 1];
    !Forgets(c, s, o) && !AbsoluteAsk(c, s, o) && (RollsBack(c, s, o) || RolledBack(c, run[..|run| - 1]))
  }

  lemma StepInOrder(c: Config, s: State, o: Observation)
    requires Started(s) && (Forgets(c, s, o) || AbsoluteAsk(c, s, o) || (InOrder(s) && !RollsBack(c, s, o)))
    ensures InOrder(Step(c, s, o).0)
  {
    StepPositive(c, s, o);
    StepStarted(c, s, o);
  }

  /** Unless it was rolled back so, the clock is never behind the last absolute ask. */
  lemma {:induction false} RunInOrder(c: Config, run: seq<Observation>)
    requires !RolledBack(c, run)
    ensures InOrder(After(c, run))
  {
    if |run| > 0 {
      var front, o := run[..|run| - 1], run[|run| - 1];
      RunStarted(c, front);
      if !Forgets(c, After(c, front), o) && !AbsoluteAsk(c, After(c, front), o) {
        RunInOrder(c, front);
      }
      StepInOrder(c, After(c, front), o);
    }
  }

  // ---------------------------------------------------------------- pauses between asks

  /** The update's candidate cannot be compared with the previous output, so the gate does not ask for the time. */
  ghost predicate Uncompared(c: Config, s: State, o: Observation) {
    var (t, sel) := Prepared(c, s, o);
    sel.Some? && !Comparable(t, o)
  }

  /** At position k the clock cannot be behind the last absolute ask. */
  ghost predicate Reliable(c: Config, run: seq<Observation>, k: nat, source: Source)
    requires k < |run|
  {
    source == DirectTop || !RolledBack(c, run[..k + 1])
  }

  /** Between two asks, or behind the last, a processed update comes within the hold time of the ask before it. */
  ghost predicate HeldAt(c: Config, run: seq<Observation>, ks: seq<nat>, source: Source, i: nat, p: nat) {
    && i < |ks| && ks[i] < |run| && p < |run|
    && (Pause(ks, i, p) && !Uncompared(c, At(c, run, p), run[p]) && Reliable(c, run, ks[i], source) ==>
          run[p].stamp - run[ks[i]].stamp <= c.stableHold)
  }

  /** So it is behind every ask: of the absolute source, and of a static source unless the clock was rolled back before it. */
  ghost predicate Held(c: Config, run: seq<Observation>, ks: seq<nat>, track: nat, source: Source) {
    forall i: nat, p: nat :: i < |ks| && ContinuesAt(c, run, p, track) ==> HeldAt(c, run, ks, source, i, p)
  }

  /** A resting update leaves the stamp of the last absolute ask alone. */
  lemma RestKeepsPositive(c: Config, s: State, o: Observation, track: nat)
    requires Rests(c, s, o, track)
    ensures Step(c, s, o).0.pending.lastPositive == s.pending.lastPositive
  {
    StepPositive(c, s, o);
  }

  /** The stamp of the last absolute ask before each update. */
  ghost function Positive(c: Config, run: seq<Observation>): nat -> real {
    (p: nat) => if p <= |run| then At(c, run, p).pending.lastPositive else 0.0
  }

  lemma AfterUpdate(c: Config, run: seq<Observation>, k: nat, next: nat)
    requires next == k + 1 <= |run|
    ensures At(c, run, next) == Step(c, At(c, run, k), run[k]).0
  {
    assert run[..next][..k] == run[..k];
  }

  /** No resting update changes it. */
  lemma PositiveLasts(c: Config, run: seq<Observation>, track: nat)
    ensures Lasts(|run|, Resting(c, run, track), Positive(c, run))
  {
    forall x: nat, next: nat | next == x + 1 <= |run| && Resting(c, run, track)(x)
      ensures Positive(c, run)(next) == Positive(c, run)(x)
    {
      AfterUpdate(c, run, x, next);
      RestKeepsPositive(c, At(c, run, x), run[x], track);
    }
  }

  lemma AskIsProcessed(c: Config, s: State, o: Observation, track: nat, source: Source, first: Span)
    requires Asks(c, s, o, track, source, first)
    ensures Step(c, s, o).0.lastStamp == o.stamp
    ensures source == DirectTop ==> Step(c, s, o).0.pending.lastPositive == o.stamp
  {
    StepPositive(c, s, o);
    ProcessKeepsStore(c, s, o);
    PreparedKeeps(c, s, o);
  }

  /** Right after the update at k the clock is not behind the last absolute ask. */
  ghost predicate OrderedAt(c: Config, run: seq<Observation>, k: nat) {
    k < |run| && Positive(c, run)(k + 1) <= run[k].stamp
  }

  /** Right after an ask: the absolute source has set the stamp to it; for a static source the clock shows the ask. */
  lemma AskInOrder(c: Config, run: seq<Observation>, k: nat, next: nat, track: nat, source: Source, first: Span)
    requires next == k + 1 && Asking(c, run, track, source, first)(k) && Reliable(c, run, k, source)
    ensures OrderedAt(c, run, k)
  {
    AskIsProcessed(c, At(c, run, k), run[k], track, source, first);
    AfterUpdate(c, run, k, next);
    if source != DirectTop {
      RunInOrder(c, run[..next]);
    }
  }

  /** The update at p, if the gate asks for the time, comes within the hold of what the time counts from. */
  ghost predicate InHold(c: Config, run: seq<Observation>, track: nat, p: nat) {
    p < |run| && (ContinuesAt(c, run, p, track) && !Uncompared(c, At(c, run, p), run[p]) ==> run[p].stamp - Positive(c, run)(p) <= c.stableHold)
  }

  lemma RestInHold(c: Config, run: seq<Observation>, track: nat, p: nat)
    requires p < |run| && Resting(c, run, track)(p)
    ensures InHold(c, run, track, p)
  {}

  /** The bound of one pause, whatever counts and whatever rests. */
  lemma PauseHeld(c: Config, run: seq<Observation>, ks: seq<nat>, asks: nat -> bool, rests: nat -> bool, track: nat, source: Source, i: nat, p: nat)
    requires Streak(ks, |run|, asks, rests) && Lasts(|run|, rests, Positive(c, run)) && i < |ks| && ContinuesAt(c, run, p, track)
    requires rests(p) ==> InHold(c, run, track, p)
    requires Reliable(c, run, ks[i], source) ==> OrderedAt(c, run, ks[i])
    ensures HeldAt(c, run, ks, source, i, p)
  {
    if Pause(ks, i, p) {
      PauseLasts(ks, |run|, asks, rests, Positive(c, run), i, p);
      PauseRests(ks, |run|, asks, rests, i, p);
    }
  }

  lemma StreakHeldAt(c: Config, run: seq<Observation>, ks: seq<nat>, track: nat, source: Source, first: Span, i: nat, p: nat)
    requires Streaks(c, run, ks, track, source, first) && i < |ks| && ContinuesAt(c, run, p, track)
    ensures HeldAt(c, run, ks, source, i, p)
  {
    PositiveLasts(c, run, track);
    if Resting(c, run, track)(p) {
      RestInHold(c, run, track, p);
    }
    if Reliable(c, run, ks[i], source) {
      AskInOrder(c, run, ks[i], ks[i] + 1, track, source, first);
    }
    PauseHeld(c, run, ks, Asking(c, run, track, source, first), Resting(c, run, track), track, source, i, p);
  }

  /** The pauses of every streak are held. */
  lemma StreakIsHeld(c: Config, run: seq<Observation>, ks: seq<nat>, track: nat, source: Source, first: Span)
    requires Streaks(c, run, ks, track, source, first)
    ensures Held(c, run, ks, track, source)
  {
    forall i: nat, p: nat | i < |ks| && ContinuesAt(c, run, p, track) ensures HeldAt(c, run, ks, source, i, p) {
      StreakHeldAt(c, run, ks, track, source, first, i, p);
    }
  }

  /** The gate's own test bounds the time since `last` exactly when `last` is not behind the last absolute ask. */
  lemma TestBounds(c: Config, p: Pending, last: real)
    requires p.active
    ensures (forall t: real :: !GapTooLong(c, p, t) ==> t - last <= c.stableHold) <==> p.lastPositive <= last
  {
    assert !GapTooLong(c, p, p.lastPositive + c.stableHold);
  }

  /** Behind the last ask the time counts from where it did right after it. */
  lemma LastInOrder(c: Config, run: seq<Observation>, ks: seq<nat>, asks: nat -> bool, rests: nat -> bool)
    requires |ks| > 0 && Streak(ks, |run|, asks, rests) && Lasts(|run|, rests, Positive(c, run)) && OrderedAt(c, run, ks[|ks| - 1])
    ensures Positive(c, run)(|run|) <= run[ks[|ks| - 1]].stamp
  {
    PauseLasts(ks, |run|, asks, rests, Positive(c, run), |ks| - 1, |run|);
  }

  lemma LastAskInOrder(c: Config, run: seq<Observation>, ks: seq<nat>, track: nat, source: Source, first: Span)
    requires Streaks(c, run, ks, track, source, first) && Reliable(c, run, ks[|ks| - 1], source)
    ensures Positive(c, run)(|run|) <= run[ks[|ks| - 1]].stamp
  {
    var k := ks[|ks| - 1];
    AskInOrder(c, run, k, k + 1, track, source, first);
    PositiveLasts(c, run, track);
    LastInOrder(c, run, ks, Asking(c, run, track, source, first), Resting(c, run, track));
  }

  lemma {:induction false} PositiveNow(c: Config, run: seq<Observation>)
    ensures Positive(c, run)(|run|) == After(c, run).pending.lastPositive
  {
    assert run[..|run|] == run;
  }

  /**
   Exactly when the gate bounds the pause after the last ask of the pending jump: when that ask is not behind the
   last remembered absolute ask on the clock, as it is not unless the clock was rolled back.
   */
  lemma {:induction false} HoldsExactly(c: Config, run: seq<Observation>, ks: seq<nat>)
    requires After(c, run).pending.active && EarnedBy(c, run, ks, After(c, run))
    ensures var s, last, q := After(c, run), run[ks[|ks| - 1]].stamp, LastAbsolute(c, run);
            && (q.Some? ==> q.value < |run|)
            && ((forall t: real :: !GapTooLong(c, s.pending, t) ==> t - last <= c.stableHold)
                <==> (if q.Some? then run[q.value].stamp else 0.0) <= last)
            && (Reliable(c, run, ks[|ks| - 1], s.pending.source) ==> (if q.Some? then run[q.value].stamp else 0.0) <= last)
  {
    var s := After(c, run);
    RunPositive(c, run);
    TestBounds(c, s.pending, run[ks[|ks| - 1]].stamp);
    if Reliable(c, run, ks[|ks| - 1], s.pending.source) {
      PositiveNow(c, run);
      LastAskInOrder(c, run, ks, s.track.value.0, s.pending.source, s.pending.span);
    }
  }

  // ---------------------------------------------------------------- unobservable updates

  /** A processed update without vertical evidence: no source at all, or a RECENT_STABLE hold next to the previous output. */
  ghost predicate Unseen(c: Config, s: State, o: Observation) {
    && Continues(c, s, o, o.trackId)
    && var (t, sel) := Prepared(c, s, o);
       sel.Some? ==> Comparable(t, o) && sel.value.source == RecentStable && Jump(sel.value.span, Previous(t, o)) <= c.directJump
  }

  lemma UnseenPending(c: Config, s: State, o: Observation)
    requires Unseen(c, s, o)
    ensures Step(c, s, o).0.pending == if GapTooLong(c, s.pending, o.stamp) then Cleared(s.pending) else s.pending
  {
    PreparedKeeps(c, s, o);
    var (t, sel) := Prepared(c, s, o);
    if sel.Some? {
      var (u, out) := Gate(c, t, o, sel.value);
      PublishKeeps(u, o, sel.value.source == DirectTop, out);
    }
  }

  /**
   On every run an update without vertical evidence ends a pending jump, whatever its source, if and only if it
   comes more than the hold time after the last remembered absolute ask, or after zero when there is none.
   */
  lemma {:induction false} UnseenEnds(c: Config, run: seq<Observation>, o: Observation)
    requires After(c, run).pending.active && Unseen(c, After(c, run), o)
    ensures var q := LastAbsolute(c, run);
            && (q.Some? ==> q.value < |run|)
            && (!Step(c, After(c, run), o).0.pending.active <==>
                  o.stamp - (if q.Some? then run[q.value].stamp else 0.0) > c.stableHold)
  {
    RunPositive(c, run);
    UnseenPending(c, After(c, run), o);
  }

  // ---------------------------------------------------------------- what a large rise has behind it

  /** On every run the pending jump stands for an unbroken streak, and its pauses are held. */
  lemma RunHeld(c: Config, run: seq<Observation>) returns (ks: seq<nat>)
    requires After(c, run).pending.active
    ensures var s := After(c, run);
            EarnedBy(c, run, ks, s) && Held(c, run, ks, s.track.value.0, s.pending.source)
  {
    var s := After(c, run);
    RunEarned(c, run);
    ks :| EarnedBy(c, run, ks, s);
    StreakIsHeld(c, run, ks, s.track.value.0, s.pending.source, s.pending.span);
  }

  /**
   On every run, an update whose output lies more than softJump above a comparable previous output ends
   an unbroken streak of exactly confirmFrames updates of its track asking for that jump with the same
   source; a static source publishes the height first asked for, the absolute source its present
   measurement. The updates between the asks come within the hold time of the ask before them.
   */
  lemma LargeRiseIsEarned(c: Config, run: seq<Observation>, o: Observation) returns (ks: seq<nat>, first: Span)
    requires Admit(c, After(c, run), o) == Proceed
    requires var (t, sel) := Prepared(c, After(c, run), o);
             && sel.Some? && Comparable(t, o)
             && Gate(c, t, o, sel.value).1.span.bottom > Previous(t, o).bottom + c.softJump
    ensures var (t, sel) := Prepared(c, After(c, run), o);
            && |ks| == c.confirmFrames && ks[|ks| - 1] == |run|
            && Streaks(c, run + [o], ks, o.trackId, sel.value.source, first)
            && Held(c, run + [o], ks, o.trackId, sel.value.source)
            && Gate(c, t, o, sel.value).1.source == sel.value.source
            && Gate(c, t, o, sel.value).1.span == (if sel.value.source == DirectTop then sel.value.span else first)
  {
    var s := After(c, run);
    var (t, sel) := Prepared(c, s, o);
    RaiseIsConfirmed(c, t, o, sel.value);
    RunEarned(c, run);
    PreparedKeeps(c, s, o);
    CandidateAsks(c, s, o);
    ks := ProposeEarned(c, run, o, s, sel.value);
    first := Propose(c, t.pending, o.stamp, sel.value).span;
    StreakIsHeld(c, run + [o], ks, o.trackId, sel.value.source, first);
  }
}
