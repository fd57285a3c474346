/** Streaks: positions of a run that count, with nothing but resting positions between and behind them. */
module Positions {

  ghost predicate Rising(ks: seq<nat>) {
    forall i, j :: 0 <= i < j < |ks| ==> ks[i] < ks[j]
  }

  /** The positions ks count; from the first of them up to `end` every other position rests. */
  ghost predicate Streak(ks: seq<nat>, end: nat, counts: nat -> bool, rests: nat -> bool) {
    && Rising(ks)
    && (forall i :: 0 <= i < |ks| ==> ks[i] < end && counts(ks[i]))
    && (|ks| > 0 ==> forall p: nat :: ks[0] < p < end && p !in ks ==> rests(p))
  }

  /** A longer run judges the positions before `end` as before, or more leniently. */
  lemma StreakLater(ks: seq<nat>, end: nat, counts: nat -> bool, rests: nat -> bool, counts': nat -> bool, rests': nat -> bool)
    requires Streak(ks, end, counts, rests)
    requires forall k: nat :: k < end && counts(k) ==> counts'(k)
    requires forall k: nat :: k < end && rests(k) ==> rests'(k)
    ensures Streak(ks, end, counts', rests')
  {}

  lemma StreakRests(ks: seq<nat>, end: nat, counts: nat -> bool, rests: nat -> bool)
    requires Streak(ks, end, counts, rests) && rests(end)
    ensures Streak(ks, end + 1, counts, rests)
  {}

  lemma StreakGrows(ks: seq<nat>, end: nat, counts: nat -> bool, rests: nat -> bool)
    requires Streak(ks, end, counts, rests) && counts(end)
    ensures Streak(ks + [end], end + 1, counts, rests)
  {
    var more := ks + [end];
    forall p: nat | more[0] < p < end + 1 && p !in more ensures rests(p) {
      assert end in more;
      assert forall i :: 0 <= i < |ks| ==> more[i] == ks[i];
    }
  }

  /** Position p comes after ks[i], and before the next counting position if there is one. */
  ghost predicate Pause(ks: seq<nat>, i: nat, p: nat)
    requires i < |ks|
  {
    ks[i] < p && (i + 1 < |ks| ==> p < ks[i + 1])
  }

  lemma PauseIsOff(ks: seq<nat>, i: nat, p: nat)
    requires Rising(ks) && i < |ks| && Pause(ks, i, p)
    ensures p !in ks && ks[0] < p
  {
    forall j | 0 <= j < |ks| ensures ks[j] != p {
      assert j <= i ==> ks[j] <= ks[i];
      assert j > i ==> ks[i + 1] <= ks[j];
    }
    assert ks[0] <= ks[i];
  }

  /** Between two counting positions everything rests. */
  lemma PauseRests(ks: seq<nat>, end: nat, counts: nat -> bool, rests: nat -> bool, i: nat, p: nat)
    requires Streak(ks, end, counts, rests) && i < |ks| && Pause(ks, i, p) && p < end
    ensures rests(p)
  {
    PauseIsOff(ks, i, p);
  }

  /** A value that no resting position changes. */
  ghost predicate Lasts(end: nat, rests: nat -> bool, value: nat -> real) {
    forall x: nat, next: nat :: next == x + 1 <= end && rests(x) ==> value(next) == value(x)
  }

  /** Such a value is, throughout a pause, what it was right after the counting position. */
  lemma {:induction false} PauseLasts(ks: seq<nat>, end: nat, counts: nat -> bool, rests: nat -> bool, value: nat -> real, i: nat, p: nat)
    requires Streak(ks, end, counts, rests) && Lasts(end, rests, value) && i < |ks| && Pause(ks, i, p) && p <= end
    ensures value(p) == value(ks[i] + 1)
    decreases p
  {
    if p > ks[i] + 1 {
      PauseLasts(ks, end, counts, rests, value, i, p - 1);
      PauseRests(ks, end, counts, rests, i, p - 1);
    }
  }
}
