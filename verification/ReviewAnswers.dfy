/**
 What the review-episode tracker answers after a run, told from the inputs alone: other codes pass
 through, and a review request is answered by the unbroken requests of its key behind it.
 */
module ReviewAnswers {
  import opened Prelude
  import opened ReviewEpisodes
  import opened ReviewRuns

  // ---------------------------------------------------------------- the history of a run

  /** The stamp of the last input, the first of several repeated ones. */
  function StampOf(run: seq<Action>): Option<real> {
    if |run| == 0 then None
    else
      var front, a := run[..|run| - 1], run[|run| - 1];
      if a.Reset? || BadStamp(a.input) then None
      else if StampOf(front).Some? && Abs(a.input.stamp.value - StampOf(front).value) <= STAMP_EPSILON then StampOf(front)
      else a.input.stamp
  }

  /** How the stamp of an input relates to the last one. */
  predicate Rolls(run: seq<Action>, e: Input) {
    !BadStamp(e) && StampOf(run).Some? && e.stamp.value < StampOf(run).value - STAMP_EPSILON
  }

  predicate Repeats(run: seq<Action>, e: Input) {
    !BadStamp(e) && StampOf(run).Some? && Abs(e.stamp.value - StampOf(run).value) <= STAMP_EPSILON
  }

  predicate Newer(run: seq<Action>, e: Input) {
    !BadStamp(e) && (StampOf(run).Some? ==> e.stamp.value > StampOf(run).value + STAMP_EPSILON)
  }

  /** A request while the cooldown of its key runs. */
  predicate Silenced(c: Config, run: seq<Action>, e: Input)
    requires !BadStamp(e)
    decreases |run|, 1
  {
    var m := CooldownOf(c, run);
    m.Some? && m.value.key == e.key && e.stamp.value < m.value.time
  }

  /** A request of a confirmed key that comes too long after the first of its requests. */
  predicate Expires(c: Config, run: seq<Action>, e: Input)
    requires !BadStamp(e)
    decreases |run|, 1
  {
    var ks := Asks(c, run, e.key);
    |ks| > 0 && |ks| >= c.enterConfirmFrames && e.stamp.value - run[ks[0]].input.stamp.value > c.maximumActive
  }

  /** A request on a new stamp that no cooldown silences. */
  predicate Heard(c: Config, run: seq<Action>, e: Input)
    decreases |run|, 2
  {
    Newer(run, e) && e.code == REVIEW && !Silenced(c, run, e)
  }

  /** A request with a repeated stamp, or one that is silenced. */
  predicate Unheard(c: Config, run: seq<Action>, e: Input)
    decreases |run|, 2
  {
    e.code == REVIEW && (Repeats(run, e) || (Newer(run, e) && Silenced(c, run, e)))
  }

  /**
   The positions of the unbroken requests of the key up to now: unheard requests do not break them;
   anything else does, and so does the expiry of the key itself.
   */
  function Asks(c: Config, run: seq<Action>, key: Key): (ks: seq<nat>)
    ensures forall i :: 0 <= i < |ks| ==> ks[i] < |run| && run[ks[i]].Update? && run[ks[i]].input.stamp.Some? && run[ks[i]].input.key == key
    decreases |run|, 0
  {
    if |run| == 0 then []
    else
      var front, a := run[..|run| - 1], run[|run| - 1];
      if a.Update? && Unheard(c, front, a.input) then Asks(c, front, key)
      else if a.Update? && Heard(c, front, a.input) && a.input.key == key && !Expires(c, front, a.input) then Asks(c, front, key) + [|front|]
      else []
  }

  /** The key of the last expiry and the end of its cooldown, until it has ended or been cleared. */
  function CooldownOf(c: Config, run: seq<Action>): Option<Mark>
    decreases |run|, 0
  {
    if |run| == 0 then None
    else
      var front, a := run[..|run| - 1], run[|run| - 1];
      if a.Reset? || BadStamp(a.input) || Rolls(front, a.input) || StandardWarning(a.input.code) then None
      else if Heard(c, front, a.input) && Expires(c, front, a.input) then Some(Mark(a.input.key, a.input.stamp.value + c.reentryCooldown))
      else
        var m := CooldownOf(c, front);
        if Newer(front, a.input) && m.Some? && a.input.stamp.value >= m.value.time then None else m
  }

  /** What was answered last; nothing counts as 34. */
  function LastAnswer(c: Config, run: seq<Action>): int {
    if |run| == 0 || run[|run| - 1].Reset? then OBSTACLE_INVALID
    else Step(c, After(c, INITIAL, run[..|run| - 1]), run[|run| - 1].input).1.code
  }

  // ---------------------------------------------------------------- the state is the history

  /** What the state holds of a key: nothing, its pending requests, or an episode since the first of them. */
  ghost predicate Holds(c: Config, s: State, run: seq<Action>, key: Key) {
    var ks := Asks(c, run, key);
    if |ks| == 0 then
      && (s.pending.Some? ==> s.pending.value.key != key) && (s.active.Some? ==> s.active.value.key != key)
    else
      var first := Mark(key, run[ks[0]].input.stamp.value);
      if |ks| < c.enterConfirmFrames then s.pending == Some(first) && s.confirmations == |ks| && s.active.None?
      else s.active == Some(first) && s.pending.None?
  }

  ghost predicate Reads(c: Config, s: State, run: seq<Action>) {
    && s.stamp == StampOf(run) && s.cooldown == CooldownOf(c, run) && s.lastCode == LastAnswer(c, run)
    && (forall key :: Holds(c, s, run, key))
  }

  lemma {:induction false} HistoryNext(c: Config, run: seq<Action>, a: Action, key: Key)
    ensures Asks(c, run + [a], key) ==
              if a.Update? && Unheard(c, run, a.input) then Asks(c, run, key)
              else if a.Update? && Heard(c, run, a.input) && a.input.key == key && !Expires(c, run, a.input) then Asks(c, run, key) + [|run|]
              else []
  {
    assert (run + [a])[..|run|] == run;
  }

  lemma {:induction false} Related(c: Config, s: State, run: seq<Action>, e: Input)
    requires s.stamp == StampOf(run) && s.cooldown == CooldownOf(c, run)
    ensures (Rollback(s, e) <==> Rolls(run, e)) && (Repeated(s, e) <==> Repeats(run, e)) && (Fresh(s, e) <==> Newer(run, e))
    ensures !BadStamp(e) ==> (Suppressed(s, e.key, e.stamp.value) <==> Silenced(c, run, e))
  {}

  /** The first of the requests of a key when this one joins them. */
  function FirstWith(c: Config, run: seq<Action>, e: Input): Mark
    requires e.stamp.Some?
  {
    var ks := Asks(c, run, e.key);
    Mark(e.key, if |ks| == 0 then e.stamp.value else run[ks[0]].input.stamp.value)
  }

  /** What a request that is heard makes of the marks. */
  lemma {:induction false} HeardNext(c: Config, s: State, run: seq<Action>, e: Input)
    requires ValidConfig(c) && Ok(s) && s.stamp == StampOf(run) && s.cooldown == CooldownOf(c, run)
    requires Heard(c, run, e) && Holds(c, s, run, e.key)
    ensures var t, n := Step(c, s, e).0, |Asks(c, run, e.key)|;
            if Expires(c, run, e) then
              t.pending.None? && t.active.None? && t.cooldown == Some(Mark(e.key, e.stamp.value + c.reentryCooldown))
            else
              && (if n + 1 < c.enterConfirmFrames then t.pending == Some(FirstWith(c, run, e)) && t.confirmations == n + 1 && t.active.None?
                  else t.pending.None? && t.active == Some(FirstWith(c, run, e)))
              && t.cooldown == if s.cooldown.Some? && e.stamp.value >= s.cooldown.value.time then None else s.cooldown
  {
    Related(c, s, run, e);
  }

  lemma HoldsNext(c: Config, s: State, run: seq<Action>, a: Action, key: Key)
    requires ValidConfig(c) && Ok(s) && Reads(c, s, run)
    ensures Holds(c, Act(c, s, a), run + [a], key)
  {
    HistoryNext(c, run, a, key);
    assert Holds(c, s, run, key);
    var ks := Asks(c, run, key);
    assert |ks| > 0 ==> (run + [a])[ks[0]] == run[ks[0]];
    if a.Update? {
      Related(c, s, run, a.input);
      if Heard(c, run, a.input) {
        assert Holds(c, s, run, a.input.key);
        HeardNext(c, s, run, a.input);
      } else if Unheard(c, run, a.input) {
        UnheardNext(c, s, run, a.input);
      }
    }
  }

  lemma {:induction false} UnheardNext(c: Config, s: State, run: seq<Action>, e: Input)
    requires s.stamp == StampOf(run) && s.cooldown == CooldownOf(c, run) && Unheard(c, run, e)
    ensures var t := Step(c, s, e).0;
            t.pending == s.pending && t.active == s.active && t.confirmations == s.confirmations && t.cooldown == s.cooldown
  {
    Related(c, s, run, e);
  }

  lemma {:induction false} MemoryNext(c: Config, s: State, run: seq<Action>, a: Action)
    requires ValidConfig(c) && Ok(s) && Reads(c, s, run)
    ensures Act(c, s, a).stamp == StampOf(run + [a]) && Act(c, s, a).cooldown == CooldownOf(c, run + [a])
  {
    assert (run + [a])[..|run|] == run;
    if a.Update? {
      Related(c, s, run, a.input);
      if Heard(c, run, a.input) {
        assert Holds(c, s, run, a.input.key);
        HeardNext(c, s, run, a.input);
      } else if Unheard(c, run, a.input) {
        UnheardNext(c, s, run, a.input);
      }
    }
  }

  /** The stored code is what was answered, and stays so through repeated requests. */
  lemma StoresAnswer(c: Config, s: State, e: Input)
    ensures Step(c, s, e).0.lastCode == Step(c, s, e).1.code
  {}

  lemma {:induction false} RunReads(c: Config, run: seq<Action>)
    requires ValidConfig(c)
    ensures Ok(After(c, INITIAL, run)) && Reads(c, After(c, INITIAL, run), run)
  {
    RunOk(c, run);
    if |run| > 0 {
      var front, a := run[..|run| - 1], run[|run| - 1];
      var s := After(c, INITIAL, front);
      RunReads(c, front);
      assert front + [a] == run;
      MemoryNext(c, s, front, a);
      if a.Update? {
        StoresAnswer(c, s, a.input);
      }
      forall key ensures Holds(c, Act(c, s, a), run, key) {
        HoldsNext(c, s, front, a, key);
      }
    }
  }

  // ---------------------------------------------------------------- the answers

  function Answer(c: Config, run: seq<Action>, e: Input): Decision { Step(c, After(c, INITIAL, run), e).1 }

  /**
   On every run a code other than 29 whose stamp is usable and not rolled back is answered with itself, inactive,
   and leaves neither a pending request nor an episode; a 17 or 18 leaves no cooldown either.
   */
  lemma {:induction false} OtherCodesPass(c: Config, run: seq<Action>, e: Input)
    requires ValidConfig(c) && !BadStamp(e) && !Rolls(run, e) && e.code != REVIEW
    ensures Answer(c, run, e).code == e.code && !Answer(c, run, e).active
    ensures var s := After(c, INITIAL, run + [Update(e)]);
            && s.pending.None? && s.active.None? && s.confirmations == 0
            && (e.code == 17 || e.code == 18 ==> s.cooldown.None?)
  {
    RunReads(c, run);
    AtEnd(c, run, Update(e));
    assert (run + [Update(e)])[..|run| + 1] == run + [Update(e)];
  }

  /** A bad or rolled-back stamp is answered 34 and forgets everything, but for a rolled-back stamp itself. */
  lemma {:induction false} BadStampsForget(c: Config, run: seq<Action>, e: Input)
    requires ValidConfig(c) && (BadStamp(e) || Rolls(run, e))
    ensures Answer(c, run, e).code == 34 && !Answer(c, run, e).active
    ensures var s := After(c, INITIAL, run + [Update(e)]);
            && s.pending.None? && s.active.None? && s.cooldown.None?
            && s.stamp == if BadStamp(e) then None else e.stamp
  {
    RunReads(c, run);
    AtEnd(c, run, Update(e));
    assert (run + [Update(e)])[..|run| + 1] == run + [Update(e)];
  }

  /** On every run a request with a repeated stamp gets the last answer again. */
  lemma RepeatsGetLastAnswer(c: Config, run: seq<Action>, e: Input)
    requires ValidConfig(c) && Repeats(run, e) && e.code == REVIEW
    ensures Answer(c, run, e).code == LastAnswer(c, run)
  {
    RunReads(c, run);
  }

  /**
   On every run a request on a new stamp is answered by the n unbroken requests of its key behind it: 34 while
   the cooldown of the key silences it; otherwise 34 as long as it is not yet the enterConfirmFrames-th, 29 (ENTER)
   when it is, and from then on 29 (ACTIVE) within maximumActive of the first of them and 34 (TIMEOUT) beyond.
   */
  lemma {:induction false} RequestIsAnswered(c: Config, run: seq<Action>, e: Input)
    requires ValidConfig(c) && Newer(run, e) && e.code == REVIEW
    ensures var d, ks := Answer(c, run, e), Asks(c, run, e.key);
            var silenced := Silenced(c, run, e);
            var late := |ks| >= c.enterConfirmFrames && e.stamp.value - run[ks[0]].input.stamp.value > c.maximumActive;
            && (d.code == 29 <==> !silenced && |ks| + 1 >= c.enterConfirmFrames && !late)
            && (d.code != 29 ==> d.code == 34) && (d.active <==> d.code == 29)
            && (d.event == Enter <==> !silenced && |ks| + 1 == c.enterConfirmFrames)
            && (d.event == Active <==> !silenced && |ks| >= c.enterConfirmFrames && !late)
            && (d.event == Timeout <==> !silenced && late)
            && (d.event == EnterPending <==> !silenced && |ks| + 1 < c.enterConfirmFrames)
            && (d.event == EnterPending || d.event == Enter ==> d.confirmations == |ks| + 1)
            && (silenced || late ==> d.confirmations == 0)
            && (d.event == ReentrySuppressed <==> silenced)
  {
    RunReads(c, run);
    assert Holds(c, After(c, INITIAL, run), run, e.key);
  }
}
