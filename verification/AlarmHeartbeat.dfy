/**
 The alarm heartbeat: the published code is the one requested by the latest source-stamp advance, and
 falls back to SYSTEM_NOT_READY on staleness or a clock rollback.
 */
module AlarmHeartbeat {
  import opened Prelude

  const CLEAR := 14
  const LEVEL1_WARNING := 17
  const LEVEL2_WARNING := 18
  const ANOMALY_REVIEW := 29
  const SYSTEM_NOT_READY := 30
  const INTERNAL_ERROR := 35
  const TIME_EPSILON: real := 0.000001

  datatype Reason = WallTimeRollback | InvalidSourceStamp | SourceTimeRollback | SourceStampStale | UnknownStatusCode
    | DuplicateSourceStamp | FreshStatus | NoStatus | StatusStale | Heartbeat

  datatype Result = Result(code: int, changed: bool, reason: Reason)

  /** wall and source are the last observed wall time and source stamp; progress is the wall time of the last source change. */
  datatype State = State(code: int, hasStatus: bool, wall: Option<real>, source: Option<real>, receipt: real, progress: real)

  /** A time is None when it is not finite. */
  datatype Call = Ingest(code: int, now: Option<real>, stamp: Option<real>) | Tick(now: Option<real>)

  const INITIAL := State(SYSTEM_NOT_READY, false, None, None, 0.0, 0.0)

  predicate AllowedCode(code: int) {
    code == CLEAR || code == LEVEL1_WARNING || code == LEVEL2_WARNING || code == ANOMALY_REVIEW
    || SYSTEM_NOT_READY <= code <= INTERNAL_ERROR
  }

  function Sanitized(timeout: Option<real>): real {
    if timeout.Some? && timeout.value > 0.0 then timeout.value else 0.8
  }

  // ---------------------------------------------------------------- the steps

  predicate WallOk(s: State, now: Option<real>) {
    now.Some? && now.value >= 0.0 && (s.wall.Some? ==> now.value + TIME_EPSILON >= s.wall.value)
  }

  /** A rolled-back wall clock is remembered, an invalid one is not. */
  function ObserveWall(s: State, now: Option<real>): State {
    if now.Some? && now.value >= 0.0 then s.(wall := now) else s
  }

  function Force(s: State, code: int, reason: Reason): (State, Result) {
    (s.(code := code), Result(code, s.code != code, reason))
  }

  predicate Stale(timeout: real, now: real, since: real) { now - since + TIME_EPSILON >= timeout }

  predicate SourceRollback(s: State, stamp: real) { s.source.Some? && stamp + TIME_EPSILON < s.source.value }

  predicate SourceAdvances(s: State, stamp: real) { s.source.None? || stamp > s.source.value + TIME_EPSILON }

  /** The part of ingest after the stamp has been found valid and not rolled back. */
  function Accept(timeout: real, s: State, code: int, now: real, stamp: real): (State, Result) {
    var advanced := SourceAdvances(s, stamp);
    var t := if advanced then s.(source := Some(stamp), progress := now) else s;
    if Stale(timeout, now, t.progress) then Force(t, SYSTEM_NOT_READY, SourceStampStale)
    else if !AllowedCode(code) then Force(t, INTERNAL_ERROR, UnknownStatusCode)
    else if !advanced then (t, Result(t.code, false, DuplicateSourceStamp))
    else Force(t, code, FreshStatus)
  }

  function IngestStep(timeout: real, s: State, code: int, now: Option<real>, stamp: Option<real>): (State, Result) {
    var t := ObserveWall(s, now);
    if !WallOk(s, now) then Force(t, SYSTEM_NOT_READY, WallTimeRollback)
    else
      var u := t.(hasStatus := true, receipt := now.value);
      if stamp.None? || stamp.value <= 0.0 then Force(u, INTERNAL_ERROR, InvalidSourceStamp)
      else if SourceRollback(u, stamp.value) then
        Force(u.(source := stamp, progress := now.value), SYSTEM_NOT_READY, SourceTimeRollback)
      else Accept(timeout, u, code, now.value, stamp.value)
  }

  function TickStep(timeout: real, s: State, now: Option<real>): (State, Result) {
    var t := ObserveWall(s, now);
    if !WallOk(s, now) then Force(t, SYSTEM_NOT_READY, WallTimeRollback)
    else if !t.hasStatus then Force(t, SYSTEM_NOT_READY, NoStatus)
    else if Stale(timeout, now.value, t.receipt) then Force(t, SYSTEM_NOT_READY, StatusStale)
    else if Stale(timeout, now.value, t.progress) then Force(t, SYSTEM_NOT_READY, SourceStampStale)
    else (t, Result(t.code, false, Heartbeat))
  }

  function Step(timeout: real, s: State, c: Call): (State, Result) {
    match c
    case Ingest(code, now, stamp) => IngestStep(timeout, s, code, now, stamp)
    case Tick(now) => TickStep(timeout, s, now)
  }

  // ---------------------------------------------------------------- whole runs

  function After(timeout: real, s: State, run: seq<Call>): State {
    if |run| == 0 then s else Step(timeout, After(timeout, s, run[..|run| - 1]), run[|run| - 1]).0
  }

  /** An ingest whose source stamp advanced: the clock and the stamp were accepted and the stamp is new. */
  ghost predicate Advance(s: State, c: Call) {
    && c.Ingest? && WallOk(s, c.now) && c.stamp.Some? && c.stamp.value > 0.0
    && SourceAdvances(s, c.stamp.value)
  }

  ghost predicate AdvanceAt(timeout: real, run: seq<Call>, k: nat) {
    k < |run| && Advance(After(timeout, INITIAL, run[..k]), run[k])
  }

  ghost predicate LatestAdvance(timeout: real, run: seq<Call>, k: nat) {
    AdvanceAt(timeout, run, k) && forall j: nat :: k < j < |run| ==> !AdvanceAt(timeout, run, j)
  }

  predicate Failsafe(code: int) { code == SYSTEM_NOT_READY || code == INTERNAL_ERROR }

  /** The latest advance requested the code and set the progress time; the last call came less than the timeout later. */
  ghost predicate Explained(timeout: real, run: seq<Call>, k: nat, s: State) {
    && LatestAdvance(timeout, run, k)
    && run[k].code == s.code && run[k].now == Some(s.progress)
    && |run| > 0 && run[|run| - 1].now.Some? && run[|run| - 1].now.value - s.progress + TIME_EPSILON < timeout
  }

  ghost predicate Current(timeout: real, run: seq<Call>, s: State) {
    !Failsafe(s.code) ==> exists k: nat :: Explained(timeout, run, k, s)
  }

  lemma AdvanceLater(timeout: real, run: seq<Call>, c: Call, k: nat)
    requires k < |run|
    ensures AdvanceAt(timeout, run + [c], k) <==> AdvanceAt(timeout, run, k)
  {
    assert (run + [c])[..k] == run[..k];
  }

  lemma {:induction false} AdvanceNow(timeout: real, run: seq<Call>, c: Call)
    ensures AdvanceAt(timeout, run + [c], |run|) <==> Advance(After(timeout, INITIAL, run), c)
  {
    assert (run + [c])[..|run|] == run;
  }

  lemma {:induction false} LatestStays(timeout: real, run: seq<Call>, c: Call, k: nat)
    requires LatestAdvance(timeout, run, k) && !Advance(After(timeout, INITIAL, run), c)
    ensures LatestAdvance(timeout, run + [c], k)
  {
    AdvanceLater(timeout, run, c, k);
    forall j: nat | k < j < |run + [c]| ensures !AdvanceAt(timeout, run + [c], j) {
      if j < |run| {
        AdvanceLater(timeout, run, c, j);
      } else {
        AdvanceNow(timeout, run, c);
      }
    }
  }

  /** One call either is an advance that sets the code, or keeps code and progress, or fails safe. */
  lemma StepCases(timeout: real, s: State, c: Call)
    ensures var t := Step(timeout, s, c).0;
            || Failsafe(t.code)
            || (Advance(s, c) && t.code == c.code && c.now == Some(t.progress) && 0.0 + TIME_EPSILON < timeout)
            || (!Advance(s, c) && t.code == s.code && t.progress == s.progress
                && c.now.Some? && c.now.value - s.progress + TIME_EPSILON < timeout)
  {}

  lemma {:induction false} StepCurrent(timeout: real, run: seq<Call>, c: Call)
    requires Current(timeout, run, After(timeout, INITIAL, run))
    ensures Current(timeout, run + [c], Step(timeout, After(timeout, INITIAL, run), c).0)
  {
    var s := After(timeout, INITIAL, run);
    var t := Step(timeout, s, c).0;
    StepCases(timeout, s, c);
    if !Failsafe(t.code) {
      if Advance(s, c) {
        AdvanceNow(timeout, run, c);
        assert LatestAdvance(timeout, run + [c], |run|);
        assert Explained(timeout, run + [c], |run|, t);
      } else {
        var k: nat :| Explained(timeout, run, k, s);
        LatestStays(timeout, run, c, k);
        assert Explained(timeout, run + [c], k, t);
      }
    }
  }

  lemma {:induction false} RunCurrent(timeout: real, run: seq<Call>)
    ensures Current(timeout, run, After(timeout, INITIAL, run))
  {
    if |run| > 0 {
      RunCurrent(timeout, run[..|run| - 1]);
      StepCurrent(timeout, run[..|run| - 1], run[|run| - 1]);
      assert run[..|run| - 1] + [run[|run| - 1]] == run;
    }
  }

  /**
   After any sequence of calls, a code other than 30 and 35 was requested by the latest ingest whose
   source stamp advanced, and the last call's wall time is less than the timeout after that ingest's.
   */
  lemma CodeIsCurrent(timeout: real, run: seq<Call>) returns (k: nat)
    requires !Failsafe(After(timeout, INITIAL, run).code)
    ensures LatestAdvance(timeout, run, k) && run[k].code == After(timeout, INITIAL, run).code
    ensures run[k].now.Some? && run[|run| - 1].now.Some? && run[|run| - 1].now.value - run[k].now.value < timeout
  {
    RunCurrent(timeout, run);
    k :| Explained(timeout, run, k, After(timeout, INITIAL, run));
  }

  ghost predicate WithoutAdvance(timeout: real, s: State, run: seq<Call>) {
    forall k :: 0 <= k < |run| ==> !Advance(After(timeout, s, run[..k]), run[k])
  }

  /** Without a new source stamp no calls bring back a code once the machine has failed safe. */
  lemma {:induction false} NoRevival(timeout: real, s: State, run: seq<Call>)
    requires Failsafe(s.code) && WithoutAdvance(timeout, s, run)
    ensures Failsafe(After(timeout, s, run).code)
  {
    if |run| > 0 {
      var front, c := run[..|run| - 1], run[|run| - 1];
      forall k | 0 <= k < |front| ensures !Advance(After(timeout, s, front[..k]), front[k]) {
        assert front[..k] == run[..k];
      }
      NoRevival(timeout, s, front);
      StepCases(timeout, After(timeout, s, front), c);
    }
  }

  /** A wall clock that is invalid or rolls back, a timeout, a rolled-back source stamp, or a stale one that does not advance. */
  predicate Lapses(timeout: real, s: State, c: Call) {
    || !WallOk(s, c.now)
    || (c.Tick? && (!s.hasStatus || Stale(timeout, c.now.value, s.receipt) || Stale(timeout, c.now.value, s.progress)))
    || (c.Ingest? && c.stamp.Some? && c.stamp.value > 0.0 &&
        (SourceRollback(s, c.stamp.value) || (!SourceAdvances(s, c.stamp.value) && Stale(timeout, c.now.value, s.progress))))
  }

  /** A lapse fails safe at once, and nothing but a new source stamp brings a code back, whatever calls follow. */
  lemma {:induction false} LapsesFailSafe(timeout: real, s: State, c: Call, later: seq<Call>)
    requires Lapses(timeout, s, c) && WithoutAdvance(timeout, Step(timeout, s, c).0, later)
    ensures Step(timeout, s, c).1.code == SYSTEM_NOT_READY
    ensures Failsafe(After(timeout, Step(timeout, s, c).0, later).code)
  {
    NoRevival(timeout, Step(timeout, s, c).0, later);
  }

  /** The returned code is the stored one, and changed reports exactly a change. */
  lemma ResultTellsChange(timeout: real, s: State, c: Call)
    ensures var (t, r) := Step(timeout, s, c); r.code == t.code && (r.changed <==> s.code != t.code)
  {}

  /** So a listener that takes over each changed code of a run always has the current one. */
  function Heard(timeout: real, run: seq<Call>): int {
    if |run| == 0 then INITIAL.code
    else
      var r := Step(timeout, After(timeout, INITIAL, run[..|run| - 1]), run[|run| - 1]).1;
      if r.changed then r.code else Heard(timeout, run[..|run| - 1])
  }

  lemma {:induction false} ChangesTellAll(timeout: real, run: seq<Call>)
    ensures Heard(timeout, run) == After(timeout, INITIAL, run).code
  {
    if |run| > 0 {
      ChangesTellAll(timeout, run[..|run| - 1]);
      ResultTellsChange(timeout, After(timeout, INITIAL, run[..|run| - 1]), run[|run| - 1]);
    }
  }

  // ---------------------------------------------------------------- the object

  class AlarmStateMachine {
    const timeout: real
    var code: int
    var hasStatus: bool
    var wall: Option<real>
    var source: Option<real>
    var receipt: real
    var progress: real

    ghost function Now(): State
      reads this
    {
      State(code, hasStatus, wall, source, receipt, progress)
    }

    constructor (t: Option<real>)
      ensures timeout == Sanitized(t) && Now() == INITIAL
    {
      timeout := Sanitized(t);
      code, hasStatus, wall, source, receipt, progress := SYSTEM_NOT_READY, false, None, None, 0.0, 0.0;
    }

    method ObserveWallClock(now: Option<real>) returns (ok: bool)
      modifies this
      ensures ok == old(WallOk(Now(), now)) && Now() == ObserveWall(old(Now()), now)
    {
      if now.None? || now.value < 0.0 {
        return false;
      }
      ok := wall.None? || now.value + TIME_EPSILON >= wall.value;
      wall := now;
    }

    method ForceCode(c: int, reason: Reason) returns (r: Result)
      modifies this
      ensures (Now(), r) == Force(old(Now()), c, reason)
    {
      r := Result(c, code != c, reason);
      code := c;
    }

    method AcceptStatus(c: int, now: real, stamp: real) returns (r: Result)
      modifies this
      ensures (Now(), r) == Accept(timeout, old(Now()), c, now, stamp)
    {
      var advanced := source.None? || stamp > source.value + TIME_EPSILON;
      if advanced {
        source, progress := Some(stamp), now;
      }
      if now - progress + TIME_EPSILON >= timeout {
        r := ForceCode(SYSTEM_NOT_READY, SourceStampStale);
      } else if !AllowedCode(c) {
        r := ForceCode(INTERNAL_ERROR, UnknownStatusCode);
      } else if !advanced {
        r := Result(code, false, DuplicateSourceStamp);
      } else {
        r := ForceCode(c, FreshStatus);
      }
    }

    method IngestStatus(c: int, now: Option<real>, stamp: Option<real>) returns (r: Result)
      modifies this
      ensures (Now(), r) == Step(timeout, old(Now()), Ingest(c, now, stamp))
    {
      var ok := ObserveWallClock(now);
      if !ok {
        r := ForceCode(SYSTEM_NOT_READY, WallTimeRollback);
        return;
      }
      hasStatus, receipt := true, now.value;
      if stamp.None? || stamp.value <= 0.0 {
        r := ForceCode(INTERNAL_ERROR, InvalidSourceStamp);
      } else if source.Some? && stamp.value + TIME_EPSILON < source.value {
        source, progress := stamp, now.value;
        r := ForceCode(SYSTEM_NOT_READY, SourceTimeRollback);
      } else {
        r := AcceptStatus(c, now.value, stamp.value);
      }
    }

    method TickClock(now: Option<real>) returns (r: Result)
      modifies this
      ensures (Now(), r) == Step(timeout, old(Now()), Tick(now))
    {
      var ok := ObserveWallClock(now);
      if !ok {
        r := ForceCode(SYSTEM_NOT_READY, WallTimeRollback);
      } else if !hasStatus {
        r := ForceCode(SYSTEM_NOT_READY, NoStatus);
      } else if now.value - receipt + TIME_EPSILON >= timeout {
        r := ForceCode(SYSTEM_NOT_READY, StatusStale);
      } else if now.value - progress + TIME_EPSILON >= timeout {
        r := ForceCode(SYSTEM_NOT_READY, SourceStampStale);
      } else {
        r := Result(code, false, Heartbeat);
      }
    }
  }
}
