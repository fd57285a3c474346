/** Whole-run properties of the preload certificate, boundary and handoff. */
module PreloadRuns {
  import opened Prelude
  import opened PreloadBoundary

  /** A run mixes updates with explicit resets. */
  datatype Event = Update(frame: Frame) | Reset

  type Run = seq<Event>

  function Act(s: State, e: Event, gap: real): (State, Decision) {
    match e
    case Update(f) => Step(s, f, gap)
    case Reset =>
      var (s', dropped) := ResetStep(s);
      (s', Decision(None, None, None, dropped))
  }

  function After(run: Run, gap: real): State {
    if run == [] then INITIAL else Act(After(run[..|run| - 1], gap), run[|run| - 1], gap).0
  }

  /** The tokens consumed so far, in order. */
  function Consumed(run: Run, gap: real): seq<nat> {
    if run == [] then []
    else
      var front := run[..|run| - 1];
      Consumed(front, gap) + Listed(Act(After(front, gap), run[|run| - 1], gap).1.consumed)
  }

  /** The tokens that left their slot unconsumed so far, in order. */
  function Dropped(run: Run, gap: real): seq<nat> {
    if run == [] then []
    else
      var front := run[..|run| - 1];
      Dropped(front, gap) + Act(After(front, gap), run[|run| - 1], gap).1.dropped
  }

  // ---------------------------------------------------------------- tokens

  /** Boundary and handoff are never occupied together. */
  ghost predicate Exclusive(s: State) { !(s.boundary.Some? && s.handoff.Some?) }

  /** How often the token stands in the list, the option, the slots. */
  function Times(ts: seq<nat>, t: nat): nat { multiset(ts)[t] }

  function Once(token: Option<nat>, t: nat): nat { if token == Some(t) then 1 else 0 }

  function Held(s: State, t: nat): nat {
    Once(s.certificate, t) + Once(BoundaryToken(s), t) + Once(HandoffToken(s), t)
  }

  lemma TimesJoined(a: seq<nat>, b: seq<nat>, t: nat)
    ensures Times(a + b, t) == Times(a, t) + Times(b, t)
  {}

  lemma TimesListed(token: Option<nat>, t: nat)
    ensures Times(Listed(token), t) == Once(token, t)
  {}

  lemma TimesSlots(s: State, t: nat)
    ensures Times(Slots(s), t) == Held(s, t)
  {
    TimesListed(s.certificate, t);
    TimesListed(BoundaryToken(s), t);
    TimesListed(HandoffToken(s), t);
    TimesJoined(Listed(s.certificate), Listed(BoundaryToken(s)), t);
    TimesJoined(Listed(s.certificate) + Listed(BoundaryToken(s)), Listed(HandoffToken(s)), t);
  }

  /** From s to s' the token left the slots as often as it stands in the list; the counter stands still. */
  ghost predicate Leaves(s: State, s': State, left: seq<nat>, t: nat) {
    Held(s, t) == Held(s', t) + Times(left, t) && s'.created == s.created && (Exclusive(s) ==> Exclusive(s'))
  }

  lemma LeavesTwice(s: State, s': State, s'': State, left: seq<nat>, more: seq<nat>, t: nat)
    requires Leaves(s, s', left, t) && Leaves(s', s'', more, t)
    ensures Leaves(s, s'', left + more, t)
  {
    TimesJoined(left, more, t);
  }

  lemma ClearLeaves(s: State, t: nat)
    ensures Leaves(s, ClearAll(s).0, ClearAll(s).1, t)
  {
    TimesSlots(s, t);
  }

  lemma ExpireLeaves(s: State, f: Frame, gap: real, t: nat)
    requires f.stamp.Some?
    ensures Leaves(s, ExpireHandoff(s, f, gap).0, ExpireHandoff(s, f, gap).1, t)
  {}

  lemma PrepareLeaves(s: State, f: Frame, gap: real, t: nat)
    requires f.stamp.Some?
    ensures Leaves(s, Prepare(s, f, gap).0, Prepare(s, f, gap).1, t)
  {
    var (s1, d1) := RollBack(s, f);
    var (s2, d2) := ExpireHandoff(s1, f, gap);
    var (s3, d3) := Rearm(s2, f);
    ClearLeaves(s, t);
    ExpireLeaves(s1, f, gap, t);
    ClearLeaves(s2, t);
    LeavesTwice(s, s1, s2, d1, d2, t);
    LeavesTwice(s, s2, s3, d1 + d2, d3, t);
  }

  lemma PromoteLeaves(s: State, f: Frame, allowed: bool, lifecycleEdge: bool, loadEdge: bool, gap: real, t: nat)
    requires f.stamp.Some?
    ensures var (s', captured, d) := Promote(s, f, allowed, lifecycleEdge, loadEdge, gap); Leaves(s, s', d, t)
  {}

  lemma CaptureLeaves(s: State, f: Frame, allowed: bool, lifecycleEdge: bool, loadEdge: bool, t: nat)
    requires f.stamp.Some?
    ensures Leaves(s, Capture(s, f, allowed, lifecycleEdge, loadEdge).0, [], t)
  {}

  lemma BoundaryLeaves(s: State, f: Frame, gap: real, t: nat)
    requires f.stamp.Some?
    ensures var (s', captured, d) := BoundaryStages(s, f, gap); Leaves(s, s', d, t)
  {
    var allowed, lifecycleEdge, loadEdge := CaptureAllowed(s, f), LifecycleEdge(s, f), LoadEdge(s, f);
    var (s1, d1) := Prepare(s, f, gap);
    var (s2, promoted, d2) := Promote(s1, f, allowed, lifecycleEdge, loadEdge, gap);
    PrepareLeaves(s, f, gap, t);
    PromoteLeaves(s1, f, allowed, lifecycleEdge, loadEdge, gap, t);
    CaptureLeaves(s2, f, allowed, lifecycleEdge, loadEdge, t);
    LeavesTwice(s, s1, s2, d1, d2, t);
  }

  lemma EndLeaves(s: State, f: Frame, t: nat)
    ensures Leaves(s, EndEpoch(s, f).0, EndEpoch(s, f).1, t)
  {
    TimesListed(s.certificate, t);
  }

  lemma UnloadLeaves(s: State, f: Frame, t: nat)
    ensures Leaves(s, Unload(s, f).0, Unload(s, f).1, t)
  {
    TimesListed(s.certificate, t);
  }

  lemma EpochLeaves(s: State, f: Frame, t: nat)
    ensures Leaves(s, CloseEpoch(s, f).0, CloseEpoch(s, f).1, t)
  {
    var (s1, d1) := EndEpoch(s, f);
    var (s2, d2) := Unload(s1, f);
    EndLeaves(s, f, t);
    UnloadLeaves(s1, f, t);
    LeavesTwice(s, s1, s2, d1, d2, t);
  }

  /** The fresh token comes in, the consumed and the dropped ones go out. */
  ghost predicate Balanced(s: State, s': State, d: Decision, t: nat) {
    && Held(s, t) + Once(d.minted, t) == Held(s', t) + Once(d.consumed, t) + Times(d.dropped, t)
    && (if d.minted.Some? then d.minted.value == s.created && s'.created == s.created + 1 else s'.created == s.created)
    && (Exclusive(s) ==> Exclusive(s'))
  }

  lemma MatchBalanced(s: State, f: Frame, t: nat)
    ensures var (s', consumed, d) := MatchHandoff(s, f); Balanced(s, s', Decision(None, consumed, None, d), t)
  {}

  lemma MintBalanced(s: State, f: Frame, t: nat)
    ensures var (s', minted) := Mint(s, f); Balanced(s, s', Decision(None, None, minted, []), t)
  {}

  lemma ContradictLeaves(s: State, f: Frame, t: nat)
    ensures Leaves(s, Close(Contradict(s, f).0, f), Contradict(s, f).1, t)
  {
    TimesListed(s.certificate, t);
  }

  lemma GroupsBalanced(s: State, f: Frame, t: nat)
    ensures var (s', consumed, minted, d) := GroupStages(s, f); Balanced(s, s', Decision(None, consumed, minted, d), t)
  {
    var (s1, d1) := CloseEpoch(s, f);
    var (s2, consumed, d2) := MatchHandoff(s1, f);
    EpochLeaves(s, f, t);
    MatchBalanced(s1, f, t);
    var (s3, minted) := Mint(s2, f);
    MintBalanced(s2, f, t);
    ContradictLeaves(s3, f, t);
    TimesJoined(d1, d2, t);
    TimesJoined(d1 + d2, Contradict(s3, f).1, t);
  }

  /** One event: a token only moves between slots, unless it is minted or reported as consumed or dropped. */
  lemma TokenFlow(s: State, e: Event, gap: real, t: nat)
    ensures var (s', d) := Act(s, e, gap); Balanced(s, s', d, t)
  {
    ClearLeaves(s, t);
    if e.Update? && Accepted(s, e.frame) {
      var f := e.frame;
      var (s1, captured, d1) := BoundaryStages(s, f, gap);
      var (s2, consumed, minted, d2) := GroupStages(s1, f);
      BoundaryLeaves(s, f, gap, t);
      GroupsBalanced(s1, f, t);
      TimesJoined(d1, d2, t);
    }
  }

  /** On every run each minted token is exactly once held, consumed or dropped, and no other token ever is. */
  lemma {:induction false} TokensConserved(run: Run, gap: real, t: nat)
    ensures Times(Slots(After(run, gap)), t) + Times(Consumed(run, gap), t) + Times(Dropped(run, gap), t)
            == if t < After(run, gap).created then 1 else 0
    ensures Exclusive(After(run, gap))
  {
    TimesSlots(After(run, gap), t);
    if run != [] {
      var front, e := run[..|run| - 1], run[|run| - 1];
      var s := After(front, gap);
      var d := Act(s, e, gap).1;
      TokensConserved(front, gap, t);
      TimesSlots(s, t);
      TokenFlow(s, e, gap, t);
      TimesListed(d.consumed, t);
      TimesJoined(Consumed(front, gap), Listed(d.consumed), t);
      TimesJoined(Dropped(front, gap), d.dropped, t);
    }
  }

  lemma TwiceListed(ts: seq<nat>, i: nat, j: nat)
    requires i < j < |ts| && ts[i] == ts[j]
    ensures Times(ts, ts[i]) >= 2
  {
    assert ts == ts[..j] + ts[j..];
    assert ts[i] == ts[..j][i] && ts[i] == ts[j..][0];
    assert ts[i] in ts[..j] && ts[i] in ts[j..];
    TimesJoined(ts[..j], ts[j..], ts[i]);
  }

  /** The serial numbers handed out so far. */
  function Naturals(n: nat): seq<nat> {
    seq(n, i requires 0 <= i < n => i)
  }

  lemma {:induction false} NaturalsOnce(n: nat, t: nat)
    ensures Times(Naturals(n), t) == if t < n then 1 else 0
  {
    if n > 0 {
      NaturalsOnce(n - 1, t);
      assert Naturals(n) == Naturals(n - 1) + [n - 1];
    }
  }

  lemma SameTimes(a: seq<nat>, b: seq<nat>)
    requires forall t: nat :: Times(a, t) == Times(b, t)
    ensures |a| == |b|
  {
    forall t: nat ensures multiset(a)[t] == multiset(b)[t] {
      assert Times(a, t) == Times(b, t);
    }
    assert multiset(a) == multiset(b);
    assert |multiset(a)| == |multiset(b)|;
  }

  /**
   On every run each certificate is consumed at most once, none that is still held or was dropped is, and
   the held, consumed and dropped ones add up to all certificates created.
   */
  lemma {:induction false} SpentAtMostOnce(run: Run, gap: real)
    ensures forall i, j :: 0 <= i < j < |Consumed(run, gap)| ==> Consumed(run, gap)[i] != Consumed(run, gap)[j]
    ensures forall t :: t in Consumed(run, gap) ==> t !in Slots(After(run, gap)) && t !in Dropped(run, gap)
    ensures |Slots(After(run, gap))| + |Consumed(run, gap)| + |Dropped(run, gap)| == After(run, gap).created
  {
    var held, consumed, dropped := Slots(After(run, gap)), Consumed(run, gap), Dropped(run, gap);
    forall i, j | 0 <= i < j < |consumed| ensures consumed[i] != consumed[j] {
      TokensConserved(run, gap, consumed[i]);
      if consumed[i] == consumed[j] {
        TwiceListed(consumed, i, j);
      }
    }
    forall t | t in consumed ensures t !in held && t !in dropped {
      TokensConserved(run, gap, t);
    }
    var n := After(run, gap).created;
    forall t: nat ensures Times(held + consumed + dropped, t) == Times(Naturals(n), t) {
      TokensConserved(run, gap, t);
      TimesJoined(held, consumed, t);
      TimesJoined(held + consumed, dropped, t);
      NaturalsOnce(n, t);
    }
    SameTimes(held + consumed + dropped, Naturals(n));
  }

  // ---------------------------------------------------------------- edges

  /** The state the i-th event of the run starts from. */
  ghost function Before(run: Run, gap: real, i: nat): State
    requires i <= |run|
  {
    After(run[..i], gap)
  }

  ghost predicate LoadEdgeAt(run: Run, gap: real, i: nat) {
    && i < |run| && run[i].Update?
    && Accepted(Before(run, gap, i), run[i].frame) && LoadEdge(Before(run, gap, i), run[i].frame)
  }

  ghost predicate LifecycleEdgeAt(run: Run, gap: real, i: nat) {
    && i < |run| && run[i].Update?
    && Accepted(Before(run, gap, i), run[i].frame) && LifecycleEdge(Before(run, gap, i), run[i].frame)
  }

  lemma PrefixState(run: Run, e: Event, gap: real, i: nat)
    requires i <= |run|
    ensures Before(run + [e], gap, i) == Before(run, gap, i)
    ensures i < |run| ==> (LoadEdgeAt(run + [e], gap, i) <==> LoadEdgeAt(run, gap, i))
    ensures i < |run| ==> (LifecycleEdgeAt(run + [e], gap, i) <==> LifecycleEdgeAt(run, gap, i))
  {
    assert (run + [e])[..i] == run[..i];
  }

  lemma {:induction false} LastState(run: Run, e: Event, gap: real)
    ensures Before(run + [e], gap, |run|) == After(run, gap) && (run + [e])[|run|] == e
  {
    assert (run + [e])[..|run|] == run;
  }

  ghost predicate QuietSince(run: Run, gap: real, i: nat) {
    forall j :: i < j < |run| ==> !LoadEdgeAt(run, gap, j)
  }

  /** Update i opened the pending boundary b, and while b waits for the lifecycle edge no load edge followed. */
  ghost predicate OpenedAt(run: Run, gap: real, b: Pending, i: nat) {
    && i < |run| && run[i].Update? && run[i].frame.stamp == Some(b.firstEdge)
    && (b.phase == WaitingForLoad ==> LifecycleEdgeAt(run, gap, i))
    && (b.phase == WaitingForLifecycle ==> (LifecycleEdgeAt(run, gap, i) || LoadEdgeAt(run, gap, i)) && QuietSince(run, gap, i))
  }

  lemma GroupsKeepBoundary(s: State, f: Frame)
    ensures GroupStages(s, f).0.boundary == s.boundary
  {
    var s1 := CloseEpoch(s, f).0;
    var s2 := MatchHandoff(s1, f).0;
    var s3 := Mint(s2, f).0;
    assert s1.boundary == s.boundary && s2.boundary == s1.boundary && s3.boundary == s2.boundary;
    assert Contradict(s3, f).0.boundary == s3.boundary;
  }

  /** A boundary that stands after an accepted update stood before it, or this update opened it. */
  lemma BoundaryStays(s: State, f: Frame, gap: real)
    requires Exclusive(s) && f.stamp.Some?
    ensures var s' := BoundaryStages(s, f, gap).0;
            s'.boundary.Some? ==>
              var b := s'.boundary.value;
              || (s.boundary == s'.boundary && (b.phase == WaitingForLifecycle ==> !LoadEdge(s, f)))
              || (&& f.stamp == Some(b.firstEdge) && (LifecycleEdge(s, f) || LoadEdge(s, f))
                  && (b.phase == WaitingForLoad ==> LifecycleEdge(s, f)))
  {}

  lemma BoundaryStep(s: State, e: Event, gap: real)
    requires Exclusive(s)
    ensures var s' := Act(s, e, gap).0;
            s'.boundary.Some? ==>
              var b := s'.boundary.value;
              && e.Update?
              && var f := e.frame;
                 || (s.boundary == s'.boundary
                     && (b.phase == WaitingForLifecycle && Accepted(s, f) ==> !LoadEdge(s, f)))
                 || (&& Accepted(s, f) && f.stamp == Some(b.firstEdge)
                     && (LifecycleEdge(s, f) || LoadEdge(s, f))
                     && (b.phase == WaitingForLoad ==> LifecycleEdge(s, f)))
  {
    if e.Update? && Accepted(s, e.frame) {
      BoundaryStays(s, e.frame, gap);
      GroupsKeepBoundary(BoundaryStages(s, e.frame, gap).0, e.frame);
    }
  }

  lemma OpenedLater(run: Run, e: Event, gap: real, b: Pending, i: nat)
    requires OpenedAt(run, gap, b, i)
    requires b.phase == WaitingForLifecycle ==> !LoadEdgeAt(run + [e], gap, |run|)
    ensures OpenedAt(run + [e], gap, b, i)
  {
    PrefixState(run, e, gap, i);
    if b.phase == WaitingForLifecycle {
      forall j | i < j < |run| + 1 ensures !LoadEdgeAt(run + [e], gap, j) {
        if j < |run| {
          PrefixState(run, e, gap, j);
        }
      }
    }
  }

  lemma {:induction false} PendingWasOpened(run: Run, gap: real)
    ensures After(run, gap).boundary.Some? ==> exists i :: OpenedAt(run, gap, After(run, gap).boundary.value, i)
  {
    if run != [] && After(run, gap).boundary.Some? {
      var n := |run| - 1;
      var front, e := run[..n], run[n];
      var s, b := After(front, gap), After(run, gap).boundary.value;
      assert run == front + [e];
      LastState(front, e, gap);
      TokensConserved(front, gap, 0);
      BoundaryStep(s, e, gap);
      if s.boundary == Some(b) && (b.phase == WaitingForLifecycle ==> !LoadEdgeAt(run, gap, n)) {
        PendingWasOpened(front, gap);
        var i :| OpenedAt(front, gap, b, i);
        OpenedLater(front, e, gap, b, i);
      } else {
        assert OpenedAt(run, gap, b, n);
      }
    }
  }

  ghost predicate Within(run: Run, i: nat, j: nat, gap: real) {
    && i <= j < |run| && run[i].Update? && run[j].Update? && run[i].frame.stamp.Some? && run[j].frame.stamp.Some?
    && 0.0 <= run[j].frame.stamp.value - run[i].frame.stamp.value <= gap
  }

  lemma PrepareKeepsBoundary(s: State, f: Frame, gap: real)
    requires f.stamp.Some?
    ensures CaptureAllowed(s, f) ==> Prepare(s, f, gap).0.boundary == s.boundary
  {}

  /** A capture without a pending boundary is SAME_FRAME and has both edges; otherwise it completes the pending one. */
  lemma CaptureStep(s: State, f: Frame, gap: real)
    ensures var d := Step(s, f, gap).1;
            d.captured.Some? ==>
              && Accepted(s, f)
              && (d.captured.value.1 == SameFrame ==> LoadEdge(s, f) && LifecycleEdge(s, f))
              && (d.captured.value.1 != SameFrame ==> s.boundary.Some? && 0.0 <= f.stamp.value - s.boundary.value.firstEdge <= gap)
              && (d.captured.value.1 == LifecycleThenLoad ==> s.boundary.value.phase == WaitingForLoad && LoadEdge(s, f))
              && (d.captured.value.1 == LoadThenLifecycle ==> s.boundary.value.phase == WaitingForLifecycle && LifecycleEdge(s, f))
  {
    if Accepted(s, f) {
      PrepareKeepsBoundary(s, f, gap);
    }
  }

  /** The update that opened the boundary of a capture, at most the gap before it. */
  lemma CaptureWindow(run: Run, f: Frame, gap: real) returns (i: nat)
    requires gap >= 0.0
    requires var d := Step(After(run, gap), f, gap).1; d.captured.Some? && d.captured.value.1 != SameFrame
    ensures After(run, gap).boundary.Some? && OpenedAt(run, gap, After(run, gap).boundary.value, i)
    ensures i < |run| && Within(run + [Update(f)], i, |run|, gap)
  {
    CaptureStep(After(run, gap), f, gap);
    PendingWasOpened(run, gap);
    i :| OpenedAt(run, gap, After(run, gap).boundary.value, i);
  }

  /**
   On every run a SAME_FRAME or LIFECYCLE_THEN_LOAD handoff is captured on an EMPTY to LOADED edge, with a
   lifecycle edge in the same or an earlier update, at most the observation gap before it.
   */
  lemma {:induction false} HandoffSawBothEdges(run: Run, f: Frame, gap: real)
    requires gap >= 0.0
    requires var d := Step(After(run, gap), f, gap).1;
             d.captured.Some? && d.captured.value.1 != LoadThenLifecycle
    ensures LoadEdgeAt(run + [Update(f)], gap, |run|)
    ensures exists i :: LifecycleEdgeAt(run + [Update(f)], gap, i) && Within(run + [Update(f)], i, |run|, gap)
  {
    var s, all := After(run, gap), run + [Update(f)];
    CaptureStep(s, f, gap);
    LastState(run, Update(f), gap);
    if Step(s, f, gap).1.captured.value.1 == SameFrame {
      assert LifecycleEdgeAt(all, gap, |run|) && Within(all, |run|, |run|, gap);
    } else {
      var i := CaptureWindow(run, f, gap);
      PrefixState(run, Update(f), gap, i);
      assert LifecycleEdgeAt(all, gap, i) && Within(all, i, |run|, gap);
    }
  }

  ghost predicate LoadEdgeBetween(run: Run, gap: real, i: nat, last: nat) {
    exists j :: i <= j <= last && LoadEdgeAt(run, gap, j)
  }

  /** No load edge follows the opening update but, perhaps, the one that captures. */
  lemma OnlyEnds(run: Run, e: Event, gap: real, i: nat)
    requires i < |run| && QuietSince(run, gap, i)
    ensures LoadEdgeBetween(run + [e], gap, i, |run|) <==> LoadEdgeAt(run + [e], gap, i) || LoadEdgeAt(run + [e], gap, |run|)
  {
    forall j | i < j < |run| ensures !LoadEdgeAt(run + [e], gap, j) {
      PrefixState(run, e, gap, j);
    }
  }

  /**
   A LOAD_THEN_LIFECYCLE handoff is captured on a lifecycle edge, within the gap of the update i that opened its
   boundary. It saw a load edge exactly when that opening update, or the capturing one, was a load edge.
   */
  lemma LoadThenLifecycleEdges(run: Run, f: Frame, gap: real) returns (i: nat)
    requires gap >= 0.0
    requires var d := Step(After(run, gap), f, gap).1;
             d.captured.Some? && d.captured.value.1 == LoadThenLifecycle
    ensures LifecycleEdgeAt(run + [Update(f)], gap, |run|)
    ensures i < |run| && Within(run + [Update(f)], i, |run|, gap)
    ensures LifecycleEdgeAt(run + [Update(f)], gap, i) || LoadEdgeAt(run + [Update(f)], gap, i)
    ensures LoadEdgeBetween(run + [Update(f)], gap, i, |run|) <==>
              LoadEdgeAt(run + [Update(f)], gap, i) || LoadEdgeAt(run + [Update(f)], gap, |run|)
  {
    CaptureStep(After(run, gap), f, gap);
    LastState(run, Update(f), gap);
    i := CaptureWindow(run, f, gap);
    PrefixState(run, Update(f), gap, i);
    OnlyEnds(run, Update(f), gap, i);
  }

  // ---------------------------------------------------------------- a load edge that never was

  function Plain(stamp: real, lifecycle: nat, gravityValid: bool, gravity: Gravity, completes: bool): Frame {
    Frame(Some(stamp), lifecycle, false, gravityValid, gravity, true, true, 0, 0, false, completes, false, false)
  }

  /** Two lifecycle edges with the gravity signal missing at the first: a handoff is captured and no load edge ever occurred. */
  lemma HandoffWithoutLoadEdge()
    ensures var run := [Update(Plain(1.0, 1, true, Empty, true)), Update(Plain(1.1, 2, false, Unknown, false))];
            var f := Plain(1.2, 3, true, Loaded, false);
            && Step(After(run, 0.5), f, 0.5).1.captured == Some((0, LoadThenLifecycle))
            && forall i :: !LoadEdgeAt(run + [Update(f)], 0.5, i)
  {
    var f0, f1, f2 := Plain(1.0, 1, true, Empty, true), Plain(1.1, 2, false, Unknown, false), Plain(1.2, 3, true, Loaded, false);
    var run := [Update(f0), Update(f1)];
    var all := run + [Update(f2)];
    var s1 := Step(INITIAL, f0, 0.5).0;
    var s2 := Step(s1, f1, 0.5).0;
    assert all[..0] == [] && all[..1] == [Update(f0)] && all[..2] == run && run[..1] == [Update(f0)] && [Update(f0)][..0] == [];
    assert After([Update(f0)], 0.5) == s1;
    assert After(run, 0.5) == s2;
    assert s2.boundary == Some(Pending(0, WaitingForLifecycle, 1.1, 1.1));
  }
}
