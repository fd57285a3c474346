/**
 What the heartbeat publishes after a run, told from the calls alone: which call spoke last, what it was
 entitled to say, and which of the two failure codes stands otherwise.
 */
module AlarmHistory {
  import opened Prelude
  import opened AlarmHeartbeat

  // ---------------------------------------------------------------- clocks and stamps, from the calls alone

  /** The wall time of the last call that carried a valid one, rolled back or not. */
  function LastWall(run: seq<Call>): Option<real> {
    if |run| == 0 then None
    else
      var now := run[|run| - 1].now;
      if now.Some? && now.value >= 0.0 then now else LastWall(run[..|run| - 1])
  }

  /** The call comes with a valid wall time that is not behind the last one. */
  predicate Clocked(run: seq<Call>, c: Call) {
    c.now.Some? && c.now.value >= 0.0 && (LastWall(run).Some? ==> c.now.value + TIME_EPSILON >= LastWall(run).value)
  }

  /** A status on a good clock with a usable source stamp. */
  predicate Stamped(run: seq<Call>, c: Call) {
    c.Ingest? && Clocked(run, c) && c.stamp.Some? && c.stamp.value > 0.0
  }

  /** The position of the last status that moved the source stamp, in either direction, or -1. */
  function LastMove(run: seq<Call>): (k: int)
    ensures -1 <= k < |run| && (k >= 0 ==> Stamped(run[..k], run[k]))
    decreases |run|
  {
    if |run| == 0 then -1
    else
      var front, c := run[..|run| - 1], run[|run| - 1];
      var k := LastMove(front);
      assert k >= 0 ==> run[..k] == front[..k];
      if Stamped(front, c) && (k < 0 || Abs(c.stamp.value - run[k].stamp.value) > TIME_EPSILON) then |run| - 1 else k
  }

  /** The position of the last status on a good clock, or -1. */
  function LastReceipt(run: seq<Call>): (k: int)
    ensures -1 <= k < |run| && (k >= 0 ==> run[k].Ingest? && run[k].now.Some?)
  {
    if |run| == 0 then -1
    else if run[|run| - 1].Ingest? && Clocked(run[..|run| - 1], run[|run| - 1]) then |run| - 1
    else LastReceipt(run[..|run| - 1])
  }

  /** The status has a source stamp later than every one accepted since the last rollback. */
  predicate Newer(run: seq<Call>, c: Call) {
    Stamped(run, c) && (LastMove(run) < 0 || c.stamp.value > run[LastMove(run)].stamp.value + TIME_EPSILON)
  }

  predicate Older(run: seq<Call>, c: Call) {
    Stamped(run, c) && LastMove(run) >= 0 && c.stamp.value + TIME_EPSILON < run[LastMove(run)].stamp.value
  }

  /** No source stamp has moved for the timeout. */
  predicate SourceSilent(timeout: real, run: seq<Call>, now: real) {
    now - (if LastMove(run) < 0 then 0.0 else run[LastMove(run)].now.value) + TIME_EPSILON >= timeout
  }

  /** No status has come for the timeout, or none ever. */
  predicate StatusSilent(timeout: real, run: seq<Call>, now: real) {
    LastReceipt(run) < 0 || now - run[LastReceipt(run)].now.value + TIME_EPSILON >= timeout
  }

  // ---------------------------------------------------------------- what each call decides

  /** A bad clock, silence at a tick, or a status that is rolled back or repeats its stamp after the timeout. */
  predicate NotReady(timeout: real, run: seq<Call>, c: Call) {
    || !Clocked(run, c)
    || (c.Tick? && (StatusSilent(timeout, run, c.now.value) || SourceSilent(timeout, run, c.now.value)))
    || Older(run, c)
    || (Stamped(run, c) && !Newer(run, c) && SourceSilent(timeout, run, c.now.value))
    || (Newer(run, c) && timeout <= TIME_EPSILON)
  }

  /** A status without a usable source stamp or with an unknown code. */
  predicate Malformed(timeout: real, run: seq<Call>, c: Call) {
    c.Ingest? && !NotReady(timeout, run, c) && (c.stamp.None? || c.stamp.value <= 0.0 || !AllowedCode(c.code))
  }

  /** A status with a new source stamp and an allowed code. */
  predicate Speaks(timeout: real, run: seq<Call>, c: Call) {
    Newer(run, c) && !NotReady(timeout, run, c) && AllowedCode(c.code)
  }

  /** A tick in time, or a known status that repeats its source stamp in time. */
  predicate Keeps(timeout: real, run: seq<Call>, c: Call) {
    !NotReady(timeout, run, c) && !Malformed(timeout, run, c) && !Speaks(timeout, run, c)
  }

  ghost predicate KeepsAt(timeout: real, run: seq<Call>, j: nat) {
    j < |run| && Keeps(timeout, run[..j], run[j])
  }

  ghost predicate DecidesAt(timeout: real, run: seq<Call>, k: nat, code: int) {
    k < |run|
    && (|| (code == SYSTEM_NOT_READY && NotReady(timeout, run[..k], run[k]))
        || (code == INTERNAL_ERROR && Malformed(timeout, run[..k], run[k]))
        || (Speaks(timeout, run[..k], run[k]) && code == run[k].code))
  }

  ghost predicate KeepsFrom(timeout: real, run: seq<Call>, k: int) {
    forall j: nat :: k <= j < |run| ==> KeepsAt(timeout, run, j)
  }

  /** Call k gives the code, and every later call keeps it. */
  ghost predicate LastWord(timeout: real, run: seq<Call>, k: nat, code: int) {
    DecidesAt(timeout, run, k, code) && KeepsFrom(timeout, run, k + 1)
  }

  // ---------------------------------------------------------------- the state is the history

  ghost predicate Reads(s: State, run: seq<Call>) {
    && s.wall == LastWall(run)
    && s.source == (if LastMove(run) < 0 then None else run[LastMove(run)].stamp)
    && s.progress == (if LastMove(run) < 0 then 0.0 else run[LastMove(run)].now.value)
    && (s.hasStatus <==> LastReceipt(run) >= 0)
    && s.receipt == (if LastReceipt(run) < 0 then 0.0 else run[LastReceipt(run)].now.value)
  }

  lemma {:induction false} HistoryNext(run: seq<Call>, c: Call)
    ensures LastWall(run + [c]) == if c.now.Some? && c.now.value >= 0.0 then c.now else LastWall(run)
    ensures LastMove(run + [c]) == if Newer(run, c) || Older(run, c) then |run| else LastMove(run)
    ensures LastReceipt(run + [c]) == if c.Ingest? && Clocked(run, c) then |run| else LastReceipt(run)
  {
    assert (run + [c])[..|run|] == run;
  }

  lemma StepReads(timeout: real, s: State, run: seq<Call>, c: Call)
    requires Reads(s, run)
    ensures Reads(Step(timeout, s, c).0, run + [c])
  {
    HistoryNext(run, c);
    assert forall k: nat :: k < |run| ==> (run + [c])[k] == run[k];
  }

  /** What one call makes of the code. */
  lemma StepDecides(timeout: real, s: State, run: seq<Call>, c: Call)
    requires Reads(s, run)
    ensures var code := Step(timeout, s, c).0.code;
            && (NotReady(timeout, run, c) ==> code == SYSTEM_NOT_READY)
            && (Malformed(timeout, run, c) ==> code == INTERNAL_ERROR)
            && (Speaks(timeout, run, c) ==> code == c.code)
            && (Keeps(timeout, run, c) ==> code == s.code)
  {}

  lemma {:induction false} RunReads(timeout: real, run: seq<Call>)
    ensures Reads(After(timeout, INITIAL, run), run)
  {
    if |run| > 0 {
      RunReads(timeout, run[..|run| - 1]);
      StepReads(timeout, After(timeout, INITIAL, run[..|run| - 1]), run[..|run| - 1], run[|run| - 1]);
      assert run[..|run| - 1] + [run[|run| - 1]] == run;
    }
  }

  // ---------------------------------------------------------------- the code is the last word

  /** A call gave the code and every later one keeps it, or it is the initial code and every call keeps it. */
  ghost predicate Published(timeout: real, run: seq<Call>, code: int) {
    || (exists k: nat :: LastWord(timeout, run, k, code))
    || (code == SYSTEM_NOT_READY && KeepsFrom(timeout, run, 0))
  }

  lemma KeepsLonger(timeout: real, run: seq<Call>, c: Call, k: nat)
    requires k <= |run| && KeepsFrom(timeout, run, k) && Keeps(timeout, run, c)
    ensures KeepsFrom(timeout, run + [c], k)
  {
    forall j: nat | k <= j < |run + [c]| ensures KeepsAt(timeout, run + [c], j) {
      assert (run + [c])[..j] == run[..j];
      assert j < |run| ==> KeepsAt(timeout, run, j);
      assert run[..|run|] == run;
    }
  }

  lemma PublishedNext(timeout: real, run: seq<Call>, c: Call, before: int, code: int)
    requires Published(timeout, run, before)
    requires NotReady(timeout, run, c) ==> code == SYSTEM_NOT_READY
    requires Malformed(timeout, run, c) ==> code == INTERNAL_ERROR
    requires Speaks(timeout, run, c) ==> code == c.code
    requires Keeps(timeout, run, c) ==> code == before
    ensures Published(timeout, run + [c], code)
  {
    assert (run + [c])[..|run|] == run;
    if !Keeps(timeout, run, c) {
      assert LastWord(timeout, run + [c], |run|, code);
    } else if KeepsFrom(timeout, run, 0) && before == SYSTEM_NOT_READY {
      KeepsLonger(timeout, run, c, 0);
    } else {
      var k: nat :| LastWord(timeout, run, k, before);
      KeepsLonger(timeout, run, c, k + 1);
      assert (run + [c])[..k] == run[..k];
      assert LastWord(timeout, run + [c], k, before);
    }
  }

  lemma {:induction false} RunPublished(timeout: real, run: seq<Call>)
    ensures Published(timeout, run, After(timeout, INITIAL, run).code)
  {
    if |run| > 0 {
      var front, c := run[..|run| - 1], run[|run| - 1];
      var s := After(timeout, INITIAL, front);
      RunPublished(timeout, front);
      RunReads(timeout, front);
      StepDecides(timeout, s, front, c);
      PublishedNext(timeout, front, c, s.code, Step(timeout, s, c).0.code);
      assert front + [c] == run;
    }
  }

  lemma DecidedNotKept(timeout: real, run: seq<Call>, k: nat, code: int)
    requires LastWord(timeout, run, k, code)
    ensures !KeepsAt(timeout, run, k) && !KeepsFrom(timeout, run, 0)
  {
    assert !KeepsAt(timeout, run, k);
  }

  /** A deciding call does not keep, so there is one last word only. */
  lemma OneLastWord(timeout: real, run: seq<Call>, k: nat, code: int, k': nat, code': int)
    requires LastWord(timeout, run, k, code) && LastWord(timeout, run, k', code')
    ensures k == k' && code == code'
  {
    assert k < k' ==> KeepsAt(timeout, run, k');
    assert k' < k ==> KeepsAt(timeout, run, k);
  }

  /**
   After any sequence of calls the published code is x exactly when x is the last word: 30 from the last call
   with a bad clock, a rolled-back stamp or silence, 35 from the last malformed status, and any other code from
   the last status with a new source stamp and that allowed code; 30 if no call has decided anything.
   */
  lemma {:induction false} CodeIsLastWord(timeout: real, run: seq<Call>, x: int)
    ensures After(timeout, INITIAL, run).code == x <==> Published(timeout, run, x)
  {
    var code := After(timeout, INITIAL, run).code;
    RunPublished(timeout, run);
    if k: nat :| LastWord(timeout, run, k, x) {
      DecidedNotKept(timeout, run, k, x);
      if k': nat :| LastWord(timeout, run, k', code) {
        OneLastWord(timeout, run, k, x, k', code);
      }
    } else if k': nat :| LastWord(timeout, run, k', code) {
      DecidedNotKept(timeout, run, k', code);
    }
  }

  /** The last status with a new source stamp asked for this allowed code, and no later call lapses or is malformed. */
  ghost predicate Requested(timeout: real, run: seq<Call>, k: nat, code: int) {
    && k < |run| && Newer(run[..k], run[k]) && run[k].code == code && AllowedCode(code)
    && (forall j: nat :: k < j < |run| ==> KeepsAt(timeout, run, j))
  }

  /** Outside 30 and 35 the code is c exactly when it was requested so; for a timeout that ends at once there is none. */
  lemma {:induction false} CodeIsRequested(timeout: real, run: seq<Call>, c: int)
    requires !Failsafe(c)
    ensures After(timeout, INITIAL, run).code == c <==> timeout > TIME_EPSILON && exists k: nat :: Requested(timeout, run, k, c)
  {
    CodeIsLastWord(timeout, run, c);
    if k: nat :| LastWord(timeout, run, k, c) {
      assert Requested(timeout, run, k, c);
    }
    if timeout > TIME_EPSILON {
      if k: nat :| Requested(timeout, run, k, c) {
        assert LastWord(timeout, run, k, c);
      }
    }
  }
}
