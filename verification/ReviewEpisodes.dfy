/**
 The anomaly-review episode tracker: a review code 29 is entered after confirmations of one key, held
 for a bounded time, and suppressed for that key while its cooldown runs.
 */
module ReviewEpisodes {
  import opened Prelude

  const LEVEL1 := 17
  const LEVEL2 := 18
  const REVIEW := 29
  const OBSTACLE_INVALID := 34
  const STAMP_EPSILON: real := 0.000001

  datatype Key = Key(lifecycle: nat, cargoTrack: nat, obstacleTrack: nat, poseGeneration: nat, mapGeneration: nat)

  datatype Config = Config(enterConfirmFrames: int, maximumActive: real, reentryCooldown: real)

  /** stamp is None when it is not finite. */
  datatype Input = Input(stamp: Option<real>, code: int, key: Key)

  datatype Event = NoEvent | InvalidStamp | TimeRollback | Promote | Disappear | RepeatedStampIgnored
    | ReentrySuppressed | Active | Timeout | EnterPending | Enter

  datatype Decision = Decision(code: int, active: bool, event: Event, confirmations: nat)

  datatype Mark = Mark(key: Key, time: real)

  /** pending and active carry the stamp of the first confirmation, cooldown the stamp it ends at. */
  datatype State = State(stamp: Option<real>, lastCode: int, pending: Option<Mark>, confirmations: nat, active: Option<Mark>, cooldown: Option<Mark>)

  const INITIAL := State(None, OBSTACLE_INVALID, None, 0, None, None)
  const DEFAULT_CONFIG := Config(2, 1.5, 2.0)

  predicate ValidConfig(c: Config) {
    c.enterConfirmFrames >= 1 && c.maximumActive > 0.0 && c.reentryCooldown >= 0.0
  }

  function Sanitized(c: Config): Config { if ValidConfig(c) then c else DEFAULT_CONFIG }

  predicate StandardWarning(code: int) { code == LEVEL1 || code == LEVEL2 }

  // ---------------------------------------------------------------- how an input relates to the last stamp

  predicate BadStamp(e: Input) { e.stamp.None? || e.stamp.value < 0.0 }

  predicate Rollback(s: State, e: Input) {
    !BadStamp(e) && s.stamp.Some? && e.stamp.value + STAMP_EPSILON < s.stamp.value
  }

  predicate Repeated(s: State, e: Input) {
    !BadStamp(e) && s.stamp.Some? && !Rollback(s, e) && Abs(e.stamp.value - s.stamp.value) <= STAMP_EPSILON
  }

  predicate Fresh(s: State, e: Input) { !BadStamp(e) && !Rollback(s, e) && !Repeated(s, e) }

  // ---------------------------------------------------------------- the transitions

  /** A standard warning ends everything, the cooldown included. */
  function Promoted(s: State, e: Input): (State, Decision) {
    (s.(pending := None, confirmations := 0, active := None, cooldown := None, lastCode := e.code),
     Decision(e.code, false, if s.active.Some? || s.pending.Some? then Promote else NoEvent, 0))
  }

  function Dropped(s: State, e: Input): (State, Decision) {
    (s.(pending := None, confirmations := 0, active := None, lastCode := e.code),
     Decision(e.code, false, if s.active.Some? || s.pending.Some? then Disappear else NoEvent, 0))
  }

  /** The same stamp again: a review request is answered with the last output, whatever its key. */
  function RepeatStep(s: State, e: Input): (State, Decision) {
    if StandardWarning(e.code) then Promoted(s, e)
    else if e.code != REVIEW then Dropped(s, e)
    else (s, Decision(s.lastCode, s.active.Some?, RepeatedStampIgnored, s.confirmations))
  }

  function ExpireCooldown(s: State, stamp: real): State {
    if s.cooldown.Some? && stamp >= s.cooldown.value.time then s.(cooldown := None) else s
  }

  predicate Suppressed(s: State, key: Key, stamp: real) {
    s.cooldown.Some? && key == s.cooldown.value.key && stamp < s.cooldown.value.time
  }

  /** One more confirmation of the key, or the first of a new key. */
  function Confirm(c: Config, s: State, key: Key, stamp: real): (State, Decision) {
    var again := s.pending.Some? && s.pending.value.key == key;
    var first := if again then s.pending.value else Mark(key, stamp);
    var count := if again then s.confirmations + 1 else 1;
    if count < c.enterConfirmFrames then
      (s.(pending := Some(first), confirmations := count, lastCode := OBSTACLE_INVALID),
       Decision(OBSTACLE_INVALID, false, EnterPending, count))
    else
      (s.(pending := None, confirmations := count, active := Some(first), lastCode := REVIEW), Decision(REVIEW, true, Enter, count))
  }

  function ReviewStep(c: Config, s: State, key: Key, stamp: real): (State, Decision) {
    if Suppressed(s, key, stamp) then
      (s.(lastCode := OBSTACLE_INVALID), Decision(OBSTACLE_INVALID, false, ReentrySuppressed, 0))
    else
      var t := ExpireCooldown(s, stamp);
      if t.active.None? then Confirm(c, t, key, stamp)
      else if t.active.value.key != key then Confirm(c, t.(active := None, pending := None, confirmations := 0), key, stamp)
      else if stamp - t.active.value.time <= c.maximumActive then
        (t.(lastCode := REVIEW), Decision(REVIEW, true, Active, t.confirmations))
      else
        (t.(active := None, pending := None, confirmations := 0, cooldown := Some(Mark(key, stamp + c.reentryCooldown)), lastCode := OBSTACLE_INVALID),
         Decision(OBSTACLE_INVALID, false, Timeout, 0))
  }

  function FreshStep(c: Config, s: State, e: Input): (State, Decision)
    requires e.stamp.Some?
  {
    var t := s.(stamp := e.stamp);
    if StandardWarning(e.code) then Promoted(t, e)
    else if e.code != REVIEW then
      var (u, d) := Dropped(t, e);
      (ExpireCooldown(u, e.stamp.value), d)
    else ReviewStep(c, t, e.key, e.stamp.value)
  }

  function Step(c: Config, s: State, e: Input): (State, Decision) {
    if BadStamp(e) then (INITIAL, Decision(OBSTACLE_INVALID, false, InvalidStamp, 0))
    else if Rollback(s, e) then (INITIAL.(stamp := e.stamp), Decision(OBSTACLE_INVALID, false, TimeRollback, 0))
    else if Repeated(s, e) then RepeatStep(s, e)
    else FreshStep(c, s, e)
  }

  // ---------------------------------------------------------------- the object

  class Tracker {
    var config: Config
    var stamp: Option<real>
    var lastCode: int
    var pending: Option<Mark>
    var confirmations: nat
    var active: Option<Mark>
    var cooldown: Option<Mark>

    ghost function Current(): State
      reads this
    {
      State(stamp, lastCode, pending, confirmations, active, cooldown)
    }

    constructor (c: Config)
      ensures config == Sanitized(c) && Current() == INITIAL
    {
      config := Sanitized(c);
      stamp, lastCode, pending, confirmations, active, cooldown := None, OBSTACLE_INVALID, None, 0, None, None;
    }

    method Reset()
      modifies this
      ensures Current() == INITIAL && config == old(config)
    {
      stamp, lastCode, pending, confirmations, active, cooldown := None, OBSTACLE_INVALID, None, 0, None, None;
    }

    method SetConfig(c: Config)
      modifies this
      ensures config == Sanitized(c) && Current() == INITIAL
    {
      config := Sanitized(c);
      Reset();
    }

    method Clear(e: Input, warning: bool) returns (d: Decision)
      modifies this
      ensures config == old(config)
      ensures (Current(), d) == if warning then Promoted(old(Current()), e) else Dropped(old(Current()), e)
    {
      var running := active.Some? || pending.Some?;
      d := Decision(e.code, false, if !running then NoEvent else if warning then Promote else Disappear, 0);
      pending, confirmations, active, lastCode := None, 0, None, e.code;
      if warning {
        cooldown := None;
      }
    }

    method Review(key: Key, now: real) returns (d: Decision)
      modifies this
      ensures config == old(config) && (Current(), d) == ReviewStep(config, old(Current()), key, now)
    {
      if cooldown.Some? && key == cooldown.value.key && now < cooldown.value.time {
        lastCode := OBSTACLE_INVALID;
        return Decision(OBSTACLE_INVALID, false, ReentrySuppressed, 0);
      }
      if cooldown.Some? && now >= cooldown.value.time {
        cooldown := None;
      }
      if active.Some? {
        if key != active.value.key {
          active, pending, confirmations := None, None, 0;
        } else if now - active.value.time <= config.maximumActive {
          lastCode := REVIEW;
          return Decision(REVIEW, true, Active, confirmations);
        } else {
          active, pending, confirmations := None, None, 0;
          cooldown := Some(Mark(key, now + config.reentryCooldown));
          lastCode := OBSTACLE_INVALID;
          return Decision(OBSTACLE_INVALID, false, Timeout, 0);
        }
      }
      if pending.None? || key != pending.value.key {
        pending, confirmations := Some(Mark(key, now)), 1;
      } else {
        confirmations := confirmations + 1;
      }
      if confirmations < config.enterConfirmFrames {
        d := Decision(OBSTACLE_INVALID, false, EnterPending, confirmations);
      } else {
        active, pending := pending, None;
        d := Decision(REVIEW, true, Enter, confirmations);
      }
      lastCode := d.code;
    }

    method Update(e: Input) returns (d: Decision)
      modifies this
      ensures config == old(config) && (Current(), d) == Step(config, old(Current()), e)
    {
      if e.stamp.None? || e.stamp.value < 0.0 {
        Reset();
        return Decision(OBSTACLE_INVALID, false, InvalidStamp, 0);
      }
      if stamp.Some? && e.stamp.value + STAMP_EPSILON < stamp.value {
        Reset();
        stamp := e.stamp;
        return Decision(OBSTACLE_INVALID, false, TimeRollback, 0);
      }
      if stamp.Some? && Abs(e.stamp.value - stamp.value) <= STAMP_EPSILON {
        if StandardWarning(e.code) || e.code != REVIEW {
          d := Clear(e, StandardWarning(e.code));
          return;
        }
        return Decision(lastCode, active.Some?, RepeatedStampIgnored, confirmations);
      }
      stamp := e.stamp;
      if StandardWarning(e.code) {
        d := Clear(e, true);
      } else if e.code != REVIEW {
        d := Clear(e, false);
        if cooldown.Some? && e.stamp.value >= cooldown.value.time {
          cooldown := None;
        }
      } else {
        d := Review(e.key, e.stamp.value);
      }
    }
  }
}
