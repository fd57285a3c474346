/**
 Whole runs of the review-episode tracker: what an ENTER has seen, how long a review stays active, and
 what the cooldown after a TIMEOUT guarantees.
 */
module ReviewRuns {
  import opened Prelude
  import opened Positions
  import opened ReviewEpisodes

  /** A run mixes updates with explicit resets. */
  datatype Action = Update(input: Input) | Reset

  function Act(c: Config, s: State, a: Action): State {
    match a
    case Update(e) => Step(c, s, e).0
    case Reset => INITIAL
  }

  function After(c: Config, s: State, run: seq<Action>): State {
    if |run| == 0 then s else Act(c, After(c, s, run[..|run| - 1]), run[|run| - 1])
  }

  function At(c: Config, run: seq<Action>, k: nat): State
    requires k <= |run|
  {
    After(c, INITIAL, run[..k])
  }

  // ---------------------------------------------------------------- what every state keeps

  ghost predicate Apart(a: Option<Mark>, b: Option<Mark>) {
    a.Some? && b.Some? ==> a.value.key != b.value.key
  }

  /** Pending and active never coexist, neither shares its key with the cooldown, and 29 was last said only while active. */
  ghost predicate Ok(s: State) {
    && !(s.pending.Some? && s.active.Some?)
    && Apart(s.active, s.cooldown) && Apart(s.pending, s.cooldown)
    && (s.lastCode == REVIEW ==> s.active.Some?)
  }

  lemma ConfirmOk(c: Config, s: State, key: Key, stamp: real)
    requires Ok(s) && s.active.None? && (s.cooldown.Some? ==> s.cooldown.value.key != key)
    ensures Ok(Confirm(c, s, key, stamp).0)
  {}

  lemma StepOk(c: Config, s: State, e: Input)
    requires Ok(s)
    ensures Ok(Step(c, s, e).0)
  {
    if Fresh(s, e) && e.code == REVIEW && !Suppressed(s, e.key, e.stamp.value) {
      var t := ExpireCooldown(s.(stamp := e.stamp), e.stamp.value);
      if t.active.None? || t.active.value.key != e.key {
        var u := t.(active := None, pending := if t.active.Some? then None else t.pending,
                    confirmations := if t.active.Some? then 0 else t.confirmations, lastCode := OBSTACLE_INVALID);
        ConfirmOk(c, u, e.key, e.stamp.value);
      }
    }
  }

  lemma {:induction false} RunOk(c: Config, run: seq<Action>)
    ensures Ok(After(c, INITIAL, run))
  {
    if |run| > 0 {
      RunOk(c, run[..|run| - 1]);
      var a := run[|run| - 1];
      if a.Update? {
        StepOk(c, After(c, INITIAL, run[..|run| - 1]), a.input);
      }
    }
  }

  // ---------------------------------------------------------------- what an episode has seen

  /** A fresh-stamp review request of the key that the cooldown does not suppress. */
  ghost predicate Counts(s: State, a: Action, key: Key) {
    a.Update? && Fresh(s, a.input) && a.input.code == REVIEW && a.input.key == key && !Suppressed(s, key, a.input.stamp.value)
  }

  /** An action that leaves a pending streak alone: a suppressed request, or a request with a repeated stamp. */
  ghost predicate Quiet(s: State, a: Action) {
    && a.Update? && a.input.code == REVIEW
    && (Repeated(s, a.input) || (Fresh(s, a.input) && Suppressed(s, a.input.key, a.input.stamp.value)))
  }

  ghost function Counting(c: Config, run: seq<Action>, key: Key): nat -> bool {
    (k: nat) => k < |run| && Counts(At(c, run, k), run[k], key)
  }

  ghost function Resting(c: Config, run: seq<Action>): nat -> bool {
    (k: nat) => k < |run| && Quiet(At(c, run, k), run[k])
  }

  /** ks: counting requests of one key, the first at stamp `since`; up to `end` everything else after it is quiet. */
  ghost predicate Requested(c: Config, run: seq<Action>, ks: seq<nat>, key: Key, since: real, end: nat) {
    && |ks| > 0 && end <= |run| && Streak(ks, end, Counting(c, run, key), Resting(c, run))
    && run[ks[0]].Update? && run[ks[0]].input.stamp == Some(since)
  }

  lemma AtLater(c: Config, run: seq<Action>, a: Action, k: nat)
    requires k <= |run|
    ensures At(c, run + [a], k) == At(c, run, k)
  {
    assert (run + [a])[..k] == run[..k];
  }

  lemma {:induction false} AtEnd(c: Config, run: seq<Action>, a: Action)
    ensures At(c, run + [a], |run|) == After(c, INITIAL, run) && (run + [a])[|run|] == a
    ensures At(c, run + [a], |run| + 1) == Act(c, After(c, INITIAL, run), a)
  {
    assert (run + [a])[..|run|] == run;
    assert (run + [a])[..|run| + 1] == run + [a];
  }

  lemma RequestedLater(c: Config, run: seq<Action>, a: Action, ks: seq<nat>, key: Key, since: real, end: nat)
    requires Requested(c, run, ks, key, since, end)
    ensures Requested(c, run + [a], ks, key, since, end)
  {
    forall k: nat | k < |run| ensures At(c, run + [a], k) == At(c, run, k) {
      AtLater(c, run, a, k);
    }
    StreakLater(ks, end, Counting(c, run, key), Resting(c, run), Counting(c, run + [a], key), Resting(c, run + [a]));
  }

  lemma {:induction false} RequestedRests(c: Config, run: seq<Action>, a: Action, ks: seq<nat>, key: Key, since: real)
    requires Requested(c, run, ks, key, since, |run|) && Quiet(After(c, INITIAL, run), a)
    ensures Requested(c, run + [a], ks, key, since, |run| + 1)
  {
    RequestedLater(c, run, a, ks, key, since, |run|);
    AtEnd(c, run, a);
    StreakRests(ks, |run|, Counting(c, run + [a], key), Resting(c, run + [a]));
  }

  lemma {:induction false} RequestedGrows(c: Config, run: seq<Action>, a: Action, ks: seq<nat>, key: Key, since: real)
    requires Requested(c, run, ks, key, since, |run|) && Counts(After(c, INITIAL, run), a, key)
    ensures Requested(c, run + [a], ks + [|run|], key, since, |run| + 1)
  {
    RequestedLater(c, run, a, ks, key, since, |run|);
    AtEnd(c, run, a);
    StreakGrows(ks, |run|, Counting(c, run + [a], key), Resting(c, run + [a]));
  }

  lemma {:induction false} RequestedStarts(c: Config, run: seq<Action>, a: Action, key: Key)
    requires Counts(After(c, INITIAL, run), a, key)
    ensures Requested(c, run + [a], [|run|], key, a.input.stamp.value, |run| + 1)
  {
    AtEnd(c, run, a);
    assert Counting(c, run + [a], key)(|run|);
  }

  /** The confirmations so far are a streak that reaches to the present. */
  ghost predicate PendingEarned(c: Config, run: seq<Action>, s: State) {
    s.pending.Some? ==>
      exists ks: seq<nat> :: |ks| == s.confirmations && Requested(c, run, ks, s.pending.value.key, s.pending.value.time, |run|)
  }

  ghost predicate ActiveAt(c: Config, run: seq<Action>, p: nat, mark: Mark) {
    p <= |run| && At(c, run, p).active == Some(mark)
  }

  ghost predicate EntersAt(c: Config, run: seq<Action>, k: nat) {
    k < |run| && run[k].Update? && Step(c, At(c, run, k), run[k].input).1.event == Enter
  }

  /**
   The episode of the mark: position k is an ENTER that completes a streak of exactly enterConfirmFrames
   requests of the key, the first of them at the mark's time, and the mark has been active ever since.
   */
  ghost predicate Episode(c: Config, run: seq<Action>, ks: seq<nat>, k: nat, mark: Mark) {
    && |ks| == c.enterConfirmFrames && Requested(c, run, ks, mark.key, mark.time, k + 1) && ks[|ks| - 1] == k
    && EntersAt(c, run, k)
    && forall p: nat :: k < p <= |run| ==> ActiveAt(c, run, p, mark)
  }

  ghost predicate ActiveEarned(c: Config, run: seq<Action>, s: State) {
    s.active.Some? ==> exists ks: seq<nat>, k: nat :: Episode(c, run, ks, k, s.active.value)
  }

  ghost predicate Earned(c: Config, run: seq<Action>, s: State) {
    && PendingEarned(c, run, s) && ActiveEarned(c, run, s)
    && (s.pending.Some? ==> 0 < s.confirmations < c.enterConfirmFrames)
  }

  lemma EntersLater(c: Config, run: seq<Action>, a: Action, k: nat)
    requires EntersAt(c, run, k)
    ensures EntersAt(c, run + [a], k)
  {
    AtLater(c, run, a, k);
  }

  lemma {:induction false} ActiveLater(c: Config, run: seq<Action>, a: Action, p: nat, mark: Mark)
    requires ActiveAt(c, run, |run|, mark) && (p <= |run| ==> ActiveAt(c, run, p, mark)) && p <= |run| + 1
    requires Act(c, After(c, INITIAL, run), a).active == Some(mark)
    ensures ActiveAt(c, run + [a], p, mark)
  {
    if p <= |run| {
      AtLater(c, run, a, p);
    } else {
      AtEnd(c, run, a);
    }
  }

  lemma {:induction false} EpisodeLater(c: Config, run: seq<Action>, a: Action, ks: seq<nat>, k: nat, mark: Mark)
    requires Episode(c, run, ks, k, mark) && Act(c, After(c, INITIAL, run), a).active == Some(mark)
    ensures Episode(c, run + [a], ks, k, mark)
  {
    RequestedLater(c, run, a, ks, mark.key, mark.time, k + 1);
    EntersLater(c, run, a, k);
    assert ActiveAt(c, run, |run|, mark);
    forall p: nat | k < p <= |run| + 1 ensures ActiveAt(c, run + [a], p, mark) {
      assert p <= |run| ==> ActiveAt(c, run, p, mark);
      ActiveLater(c, run, a, p, mark);
    }
  }

  lemma {:induction false} ActiveStays(c: Config, run: seq<Action>, a: Action, s: State)
    requires ActiveEarned(c, run, s) && s == After(c, INITIAL, run) && s.active.Some? && Act(c, s, a).active == s.active
    ensures ActiveEarned(c, run + [a], Act(c, s, a))
  {
    var ks: seq<nat>, k: nat :| Episode(c, run, ks, k, s.active.value);
    EpisodeLater(c, run, a, ks, k, s.active.value);
  }

  lemma {:induction false} PendingRests(c: Config, run: seq<Action>, a: Action, s: State, t: State)
    requires PendingEarned(c, run, s) && s == After(c, INITIAL, run) && Quiet(s, a)
    requires t.pending == s.pending && t.confirmations == s.confirmations
    ensures PendingEarned(c, run + [a], t)
  {
    if s.pending.Some? {
      var ks: seq<nat> :| |ks| == s.confirmations && Requested(c, run, ks, s.pending.value.key, s.pending.value.time, |run|);
      RequestedRests(c, run, a, ks, s.pending.value.key, s.pending.value.time);
    }
  }

  /** The streak that a confirmation of the pending key, or the first of a new key, completes so far. */
  lemma ConfirmStreak(c: Config, run: seq<Action>, a: Action, s: State, t: State) returns (ks: seq<nat>)
    requires PendingEarned(c, run, s) && s == After(c, INITIAL, run) && a.Update? && Counts(s, a, a.input.key)
    requires t.pending.None? || (t.pending == s.pending && t.confirmations == s.confirmations)
    ensures var again := t.pending.Some? && t.pending.value.key == a.input.key;
            && |ks| == (if again then s.confirmations + 1 else 1) && ks[|ks| - 1] == |run|
            && Requested(c, run + [a], ks, a.input.key, if again then t.pending.value.time else a.input.stamp.value, |run| + 1)
  {
    if t.pending.Some? && t.pending.value.key == a.input.key {
      var past: seq<nat> :| |past| == s.confirmations && Requested(c, run, past, a.input.key, s.pending.value.time, |run|);
      RequestedGrows(c, run, a, past, a.input.key, s.pending.value.time);
      ks := past + [|run|];
    } else {
      RequestedStarts(c, run, a, a.input.key);
      ks := [|run|];
    }
  }

  lemma EpisodeStarts(c: Config, run: seq<Action>, ks: seq<nat>, k: nat, mark: Mark)
    requires k + 1 == |run| && |ks| == c.enterConfirmFrames && |ks| > 0 && ks[|ks| - 1] == k
    requires Requested(c, run, ks, mark.key, mark.time, k + 1) && EntersAt(c, run, k) && ActiveAt(c, run, |run|, mark)
    ensures Episode(c, run, ks, k, mark)
  {
    forall p: nat | k < p <= |run| ensures ActiveAt(c, run, p, mark) {
      assert p == |run|;
    }
  }

  lemma {:induction false} EntersNow(c: Config, run: seq<Action>, a: Action)
    requires a.Update? && Step(c, After(c, INITIAL, run), a.input).1.event == Enter
    ensures EntersAt(c, run + [a], |run|)
    ensures var u := Act(c, After(c, INITIAL, run), a); u.active.Some? ==> ActiveAt(c, run + [a], |run| + 1, u.active.value)
  {
    AtEnd(c, run, a);
  }

  /** A completed confirmation begins the episode of its streak. */
  lemma {:induction false} EnterEarned(c: Config, run: seq<Action>, a: Action, s: State, ks: seq<nat>, mark: Mark)
    requires c.enterConfirmFrames >= 1 && s == After(c, INITIAL, run) && a.Update? && Step(c, s, a.input).1.event == Enter
    requires Act(c, s, a).active == Some(mark)
    requires |ks| == c.enterConfirmFrames && ks[|ks| - 1] == |run| && Requested(c, run + [a], ks, mark.key, mark.time, |run| + 1)
    ensures ActiveEarned(c, run + [a], Act(c, s, a))
  {
    EntersNow(c, run, a);
    EpisodeStarts(c, run + [a], ks, |run|, mark);
  }

  /** What a confirmation does to the marks. */
  lemma ConfirmMarks(c: Config, t: State, key: Key, stamp: real)
    requires c.enterConfirmFrames >= 1 && t.active.None?
    ensures var (u, d) := Confirm(c, t, key, stamp);
            var again := t.pending.Some? && t.pending.value.key == key;
            var first := if again then t.pending.value else Mark(key, stamp);
            && u.confirmations == (if again then t.confirmations + 1 else 1)
            && if u.confirmations < c.enterConfirmFrames then u.pending == Some(first) && u.active.None?
               else u.pending.None? && u.active == Some(first) && d.event == Enter
  {}

  /** A confirmation extends the streak or starts one; it enters exactly when the streak is complete. */
  lemma {:induction false} ConfirmEarned(c: Config, run: seq<Action>, a: Action, s: State, t: State)
    requires c.enterConfirmFrames >= 1 && Earned(c, run, s) && s == After(c, INITIAL, run)
    requires a.Update? && Counts(s, a, a.input.key)
    requires t.active.None? && (t.pending.None? || (t.pending == s.pending && t.confirmations == s.confirmations))
    requires Step(c, s, a.input) == Confirm(c, t, a.input.key, a.input.stamp.value)
    ensures Earned(c, run + [a], Act(c, s, a))
  {
    var u := Act(c, s, a);
    var ks := ConfirmStreak(c, run, a, s, t);
    ConfirmMarks(c, t, a.input.key, a.input.stamp.value);
    if u.active.Some? {
      EnterEarned(c, run, a, s, ks, u.active.value);
    } else {
      assert |ks| == u.confirmations && Requested(c, run + [a], ks, u.pending.value.key, u.pending.value.time, |run| + 1);
    }
  }

  lemma {:induction false} ReviewEarned(c: Config, run: seq<Action>, a: Action, s: State)
    requires ValidConfig(c) && Ok(s) && Earned(c, run, s) && s == After(c, INITIAL, run)
    requires a.Update? && Fresh(s, a.input) && a.input.code == REVIEW
    ensures Earned(c, run + [a], Step(c, s, a.input).0)
  {
    var key, stamp := a.input.key, a.input.stamp.value;
    var u := Step(c, s, a.input).0;
    if Suppressed(s, key, stamp) {
      PendingRests(c, run, a, s, u);
      if s.active.Some? {
        ActiveStays(c, run, a, s);
      }
    } else {
      var t := ExpireCooldown(s.(stamp := a.input.stamp), stamp);
      if t.active.None? {
        ConfirmEarned(c, run, a, s, t);
      } else if t.active.value.key != key {
        ConfirmEarned(c, run, a, s, t.(active := None, pending := None, confirmations := 0));
      } else if u.active.Some? {
        ActiveStays(c, run, a, s);
      }
    }
  }

  lemma {:induction false} StepEarned(c: Config, run: seq<Action>, a: Action, s: State)
    requires ValidConfig(c) && Ok(s) && Earned(c, run, s) && s == After(c, INITIAL, run)
    ensures Earned(c, run + [a], Act(c, s, a))
  {
    if a.Update? && Fresh(s, a.input) && a.input.code == REVIEW {
      ReviewEarned(c, run, a, s);
    } else if a.Update? && Repeated(s, a.input) && a.input.code == REVIEW {
      PendingRests(c, run, a, s, s);
      if s.active.Some? {
        ActiveStays(c, run, a, s);
      }
    }
  }

  /** On every run the confirmations are an unbroken streak, and an active mark is an episode that some ENTER began. */
  lemma {:induction false} RunEarned(c: Config, run: seq<Action>)
    requires ValidConfig(c)
    ensures Earned(c, run, After(c, INITIAL, run))
  {
    if |run| > 0 {
      var front, a := run[..|run| - 1], run[|run| - 1];
      RunEarned(c, front);
      RunOk(c, front);
      StepEarned(c, front, a, After(c, INITIAL, front));
      assert front + [a] == run;
    }
  }

  /** Every ENTER of every run completes exactly enterConfirmFrames counting requests of its key, with only quiet actions between. */
  lemma EnterIsConfirmed(c: Config, run: seq<Action>, e: Input) returns (ks: seq<nat>)
    requires ValidConfig(c) && Step(c, After(c, INITIAL, run), e).1.event == Enter
    ensures var t := Step(c, After(c, INITIAL, run), e).0;
            && t.active.Some? && t.active.value.key == e.key
            && |ks| == c.enterConfirmFrames && ks[|ks| - 1] == |run|
            && Requested(c, run + [Update(e)], ks, e.key, t.active.value.time, |run| + 1)
  {
    var s := After(c, INITIAL, run);
    RunEarned(c, run);
    RunOk(c, run);
    ks := ConfirmStreak(c, run, Update(e), s, if s.active.None? then s else s.(pending := None));
  }

  /**
   Every ACTIVE output of every run belongs to an episode that an ENTER began and that has been active
   ever since, and it lies within maximumActive of the first of the requests that ENTER completed.
   */
  lemma ActiveIsBounded(c: Config, run: seq<Action>, e: Input) returns (ks: seq<nat>, k: nat, since: real)
    requires ValidConfig(c) && Step(c, After(c, INITIAL, run), e).1.event == Active
    ensures Episode(c, run, ks, k, Mark(e.key, since))
    ensures e.stamp.Some? && e.stamp.value - since <= c.maximumActive
  {
    var s := After(c, INITIAL, run);
    RunEarned(c, run);
    since := s.active.value.time;
    ks, k :| Episode(c, run, ks, k, s.active.value);
    assert s.active.value == Mark(e.key, since);
  }

  // ---------------------------------------------------------------- the cooldown

  /** What can end a key's cooldown early: a standard warning, a reset of any kind, another key's TIMEOUT. */
  ghost predicate Disturbs(c: Config, s: State, a: Action, key: Key) {
    || a.Reset?
    || BadStamp(a.input) || Rollback(s, a.input) || StandardWarning(a.input.code)
    || (Step(c, s, a.input).1.event == Timeout && a.input.key != key)
  }

  ghost predicate Undisturbed(c: Config, s: State, run: seq<Action>, key: Key) {
    forall k :: 0 <= k < |run| ==> !Disturbs(c, After(c, s, run[..k]), run[k], key)
  }

  /** The cooldown of the key is running, or its end has been reached. */
  ghost predicate Cooling(s: State, key: Key, until: real) {
    s.stamp.Some? && (s.cooldown == Some(Mark(key, until)) || s.stamp.value >= until)
  }

  lemma CoolingStays(c: Config, s: State, a: Action, key: Key, until: real)
    requires ValidConfig(c) && Ok(s) && Cooling(s, key, until) && !Disturbs(c, s, a, key)
    ensures Cooling(Act(c, s, a), key, until)
  {}

  lemma {:induction false} CoolingAlong(c: Config, s: State, run: seq<Action>, key: Key, until: real)
    requires ValidConfig(c) && Ok(s) && Cooling(s, key, until) && Undisturbed(c, s, run, key)
    ensures Ok(After(c, s, run)) && Cooling(After(c, s, run), key, until)
  {
    if |run| > 0 {
      var front, a := run[..|run| - 1], run[|run| - 1];
      forall k | 0 <= k < |front| ensures !Disturbs(c, After(c, s, front[..k]), front[k], key) {
        assert front[..k] == run[..k];
      }
      CoolingAlong(c, s, front, key, until);
      CoolingStays(c, After(c, s, front), a, key, until);
      if a.Update? {
        StepOk(c, After(c, s, front), a.input);
      }
    }
  }

  lemma TimeoutCools(c: Config, s: State, e: Input)
    requires Step(c, s, e).1.event == Timeout
    ensures e.stamp.Some? && Cooling(Step(c, s, e).0, e.key, e.stamp.value + c.reentryCooldown)
  {}

  lemma CoolingRefuses(c: Config, s: State, e: Input, until: real)
    requires Cooling(s, e.key, until) && Fresh(s, e) && e.stamp.value < until
    ensures Step(c, s, e).1.code != REVIEW
  {}

  /**
   After a TIMEOUT at any point of any run, the key gets no 29 on a fresh stamp before its cooldown
   ends, however the run goes on, unless something disturbs the cooldown.
   */
  lemma {:induction false} NoReentryBeforeCooldown(c: Config, before: seq<Action>, timeout: Input, between: seq<Action>, e: Input)
    requires ValidConfig(c) && Step(c, After(c, INITIAL, before), timeout).1.event == Timeout
    requires Undisturbed(c, Step(c, After(c, INITIAL, before), timeout).0, between, timeout.key)
    requires Fresh(After(c, Step(c, After(c, INITIAL, before), timeout).0, between), e)
    requires e.key == timeout.key && timeout.stamp.Some? && e.stamp.value < timeout.stamp.value + c.reentryCooldown
    ensures Step(c, After(c, Step(c, After(c, INITIAL, before), timeout).0, between), e).1.code != REVIEW
  {
    var s := After(c, INITIAL, before);
    var until := timeout.stamp.value + c.reentryCooldown;
    RunOk(c, before);
    StepOk(c, s, timeout);
    TimeoutCools(c, s, timeout);
    var t := Step(c, s, timeout).0;
    CoolingAlong(c, t, between, timeout.key, until);
    CoolingRefuses(c, After(c, t, between), e, until);
  }

  /** A fresh 29 always answers the active key. */
  lemma FreshReviewIsActive(c: Config, s: State, e: Input)
    requires ValidConfig(c) && Fresh(s, e) && Step(c, s, e).1.code == REVIEW
    ensures Step(c, s, e).0.active.Some? && Step(c, s, e).0.active.value.key == e.key
  {}

  /** A repeated stamp can answer 29 to a key that is not active: the keys are not compared there. */
  lemma RepeatedStampIgnoresKey()
    ensures var c := Config(1, 1.5, 2.0);
            var k, other := Key(1, 1, 1, 0, 0), Key(1, 1, 2, 0, 0);
            var s := Step(c, INITIAL, Input(Some(1.0), REVIEW, k)).0;
            var (t, d) := Step(c, s, Input(Some(1.0), REVIEW, other));
            d.code == REVIEW && t.active == Some(Mark(k, 1.0)) && k != other
  {
    var c := Config(1, 1.5, 2.0);
    var k := Key(1, 1, 1, 0, 0);
    var s := Step(c, INITIAL, Input(Some(1.0), REVIEW, k)).0;
    assert s.active == Some(Mark(k, 1.0)) && s.lastCode == REVIEW;
  }

  /** Exactly when an answer of 29 concerns the requesting key: the stamp is fresh, or the key is the active one. */
  lemma {:induction false} ReviewAnswersKey(c: Config, run: seq<Action>, e: Input)
    requires ValidConfig(c) && Step(c, After(c, INITIAL, run), e).1.code == REVIEW
    ensures var s := After(c, INITIAL, run);
            && Step(c, s, e).0.active.Some?
            && (Step(c, s, e).0.active.value.key == e.key <==> Fresh(s, e) || s.active.value.key == e.key)
  {
    RunOk(c, run);
    if Fresh(After(c, INITIAL, run), e) {
      FreshReviewIsActive(c, After(c, INITIAL, run), e);
    }
  }
}
