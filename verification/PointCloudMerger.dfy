/**
 The consume-once synchroniser of one or two lidars: bounded stamp-sorted queues, the closest-pair
 search and the one-lidar fallback. Every step below runs under the queue mutex, so a run is any
 interleaving of them.
 */
module PointCloudMerger {
  import opened Prelude

  /** sequence is the per-lidar serial number, receivedAt the steady-clock arrival time. */
  datatype Frame = Frame(sequence: nat, stamp: real, receivedAt: real)

  datatype Lidar = Lidar(queue: seq<Frame>, nextSequence: nat, singleCount: nat)

  datatype Config = Config(maxPairGap: real, staleTimeout: real, maxQueue: nat)

  datatype State = State(lidars: seq<Lidar>, overflow: nat, superseded: nat, fallback: nat)

  datatype Work =
    | SingleConfig(frame: Frame)
    | Paired(first: Frame, second: Frame)
    | SingleTimeout(lidar: nat, frame: Frame)

  const EMPTY_LIDAR := Lidar([], 0, 0)

  function Initial(count: nat): State {
    State(seq(count, i => EMPTY_LIDAR), 0, 0, 0)
  }

  /** One or two lidars; the constructor raises the queue bound to at least one. */
  predicate Configured(s: State, c: Config) {
    1 <= |s.lidars| <= 2 && c.maxQueue >= 1
  }

  function Gap(a: Frame, b: Frame): real {
    if a.stamp >= b.stamp then a.stamp - b.stamp else b.stamp - a.stamp
  }

  ghost predicate Ascending(q: seq<Frame>) {
    forall i, j :: 0 <= i < j < |q| ==> q[i].stamp <= q[j].stamp
  }

  // ---------------------------------------------------------------- storing a frame

  /** Behind every queued frame whose stamp is not later. */
  function Insert(q: seq<Frame>, f: Frame): seq<Frame> {
    if |q| == 0 || q[|q| - 1].stamp <= f.stamp then q + [f]
    else Insert(q[..|q| - 1], f) + [q[|q| - 1]]
  }

  /** Any split whose left part is not later and whose right part is later is where Insert puts the frame. */
  lemma {:induction false} InsertAtSplit(q: seq<Frame>, f: Frame, k: nat)
    requires k <= |q|
    requires forall i :: 0 <= i < k ==> q[i].stamp <= f.stamp
    requires forall i :: k <= i < |q| ==> f.stamp < q[i].stamp
    ensures Insert(q, f) == q[..k] + [f] + q[k..]
  {
    if k == |q| {
      assert q[..k] == q && q[k..] == [];
    } else {
      var front := q[..|q| - 1];
      InsertAtSplit(front, f, k);
      assert front[..k] == q[..k] && front[k..] + [q[|q| - 1]] == q[k..];
    }
  }

  lemma {:induction false} InsertKeeps(q: seq<Frame>, f: Frame)
    ensures |Insert(q, f)| == |q| + 1
    ensures multiset(Insert(q, f)) == multiset(q) + multiset{f}
    ensures forall x :: x in Insert(q, f) <==> x == f || x in q
  {
    if |q| == 0 || q[|q| - 1].stamp <= f.stamp {
    } else {
      var front, last := q[..|q| - 1], q[|q| - 1];
      InsertKeeps(front, f);
      assert q == front + [last];
    }
  }

  lemma {:induction false} InsertAscending(q: seq<Frame>, f: Frame)
    requires Ascending(q)
    ensures Ascending(Insert(q, f))
  {
    if |q| == 0 || q[|q| - 1].stamp <= f.stamp {
    } else {
      var front, last := q[..|q| - 1], q[|q| - 1];
      InsertAscending(front, f);
      var r := Insert(front, f);
      InsertKeeps(front, f);
      forall i | 0 <= i < |r| ensures r[i].stamp <= last.stamp {
        assert r[i] in r;
      }
    }
  }

  /** The library's upper_bound: the first position whose stamp is strictly later. */
  method UpperBound(q: seq<Frame>, stamp: real) returns (k: nat)
    requires Ascending(q)
    ensures k <= |q|
    ensures forall i :: 0 <= i < k ==> q[i].stamp <= stamp
    ensures forall i :: k <= i < |q| ==> stamp < q[i].stamp
  {
    var low, high := 0, |q|;
    while low < high
      invariant 0 <= low <= high <= |q|
      invariant forall i :: 0 <= i < low ==> q[i].stamp <= stamp
      invariant forall i :: high <= i < |q| ==> stamp < q[i].stamp
    {
      var mid := (low + high) / 2;
      if stamp < q[mid].stamp {
        high := mid;
      } else {
        low := mid + 1;
      }
    }
    k := low;
  }

  /** A full queue loses its front frame before the new one is inserted. */
  function MakeRoom(q: seq<Frame>, maxQueue: nat): seq<Frame>
    requires maxQueue >= 1
  {
    if |q| >= maxQueue then q[1..] else q
  }

  function Store(s: State, c: Config, i: nat, stamp: real, receivedAt: real): State
    requires Configured(s, c)
  {
    if i >= |s.lidars| then s
    else
      var l := s.lidars[i];
      var f := Frame(l.nextSequence + 1, stamp, receivedAt);
      var full := |l.queue| >= c.maxQueue;
      s.(lidars := s.lidars[i := l.(queue := Insert(MakeRoom(l.queue, c.maxQueue), f), nextSequence := l.nextSequence + 1)],
         overflow := if full then s.overflow + 1 else s.overflow)
  }

  // ---------------------------------------------------------------- the closest pair

  function Closer(a: seq<Frame>, b: seq<Frame>, best: Option<(nat, nat)>, i: nat, j: nat): Option<(nat, nat)>
    requires i < |a| && j < |b|
    requires best.Some? ==> best.value.0 < |a| && best.value.1 < |b|
  {
    if best.None? || Gap(a[i], b[j]) < Gap(a[best.value.0], b[best.value.1]) then Some((i, j)) else best
  }

  /** The best pair after i whole rows and j entries of the next row. */
  function Scan(a: seq<Frame>, b: seq<Frame>, i: nat, j: nat): (best: Option<(nat, nat)>)
    requires i <= |a| && j <= |b| && (i == |a| ==> j == 0)
    ensures best.Some? ==> best.value.0 < |a| && best.value.1 < |b|
    decreases i, j
  {
    if j > 0 then Closer(a, b, Scan(a, b, i, j - 1), i, j - 1)
    else if i > 0 then Scan(a, b, i - 1, |b|)
    else None
  }

  predicate Scanned(i: nat, j: nat, x: nat, y: nat) { x < i || (x == i && y < j) }

  ghost predicate NoCloser(a: seq<Frame>, b: seq<Frame>, best: (nat, nat), x: nat, y: nat)
    requires best.0 < |a| && best.1 < |b| && x < |a| && y < |b|
  {
    && Gap(a[best.0], b[best.1]) <= Gap(a[x], b[y])
    && (Scanned(best.0, best.1, x, y) ==> Gap(a[best.0], b[best.1]) < Gap(a[x], b[y]))
  }

  /** The scan keeps a pair of least gap among those seen, and the first of them in scan order. */
  lemma {:induction false} ScanLeast(a: seq<Frame>, b: seq<Frame>, i: nat, j: nat, x: nat, y: nat)
    requires i <= |a| && j <= |b| && (i == |a| ==> j == 0)
    requires x < |a| && y < |b| && Scanned(i, j, x, y)
    ensures Scan(a, b, i, j).Some?
    ensures NoCloser(a, b, Scan(a, b, i, j).value, x, y)
    ensures Scanned(i, j, Scan(a, b, i, j).value.0, Scan(a, b, i, j).value.1)
    decreases i, j
  {
    if j > 0 {
      if x == i && y == j - 1 {
        if i > 0 || j > 1 {
          ScanLeast(a, b, i, j - 1, if j > 1 then i else i - 1, if j > 1 then j - 2 else 0);
        }
      } else {
        ScanLeast(a, b, i, j - 1, x, y);
      }
    } else {
      ScanLeast(a, b, i - 1, |b|, x, y);
    }
  }

  /** The nested search loops. */
  method ClosestPair(a: seq<Frame>, b: seq<Frame>) returns (bestA: nat, bestB: nat)
    requires |a| > 0 && |b| > 0
    ensures Scan(a, b, |a|, 0) == Some((bestA, bestB))
    ensures bestA < |a| && bestB < |b|
    ensures forall x: nat, y: nat :: x < |a| && y < |b| ==> NoCloser(a, b, (bestA, bestB), x, y)
  {
    var best: Option<(nat, nat)> := None;
    for i := 0 to |a|
      invariant best == Scan(a, b, i, 0)
    {
      for j := 0 to |b|
        invariant best == Scan(a, b, i, j)
      {
        if best.None? || Gap(a[i], b[j]) < Gap(a[best.value.0], b[best.value.1]) {
          best := Some((i, j));
        }
      }
    }
    ScanLeast(a, b, |a|, 0, 0, 0);
    bestA, bestB := best.value.0, best.value.1;
    forall x: nat, y: nat | x < |a| && y < |b| ensures NoCloser(a, b, (bestA, bestB), x, y) {
      ScanLeast(a, b, |a|, 0, x, y);
    }
  }

  // ---------------------------------------------------------------- choosing what to publish

  function Consume(l: Lidar, k: nat): Lidar
    requires k < |l.queue|
  {
    l.(queue := l.queue[k + 1..])
  }

  /** The lidar whose front frame arrived first; a tie goes to the first lidar. */
  function Fallback(a: Lidar, b: Lidar): Option<nat> {
    if |a.queue| > 0 && |b.queue| > 0 then
      Some(if a.queue[0].receivedAt <= b.queue[0].receivedAt then 0 else 1)
    else if |a.queue| > 0 then Some(0)
    else if |b.queue| > 0 then Some(1)
    else None
  }

  predicate PairReady(a: seq<Frame>, b: seq<Frame>, c: Config) {
    && |a| > 0 && |b| > 0
    && var best := Scan(a, b, |a|, 0);
       best.Some? && Gap(a[best.value.0], b[best.value.1]) <= c.maxPairGap
  }

  function PublishPair(s: State, c: Config): (State, Option<Work>)
    requires |s.lidars| == 2 && PairReady(s.lidars[0].queue, s.lidars[1].queue, c)
  {
    var a, b := s.lidars[0], s.lidars[1];
    var best := Scan(a.queue, b.queue, |a.queue|, 0).value;
    (s.(lidars := [Consume(a, best.0), Consume(b, best.1)], superseded := s.superseded + best.0 + best.1),
     Some(Paired(a.queue[best.0], b.queue[best.1])))
  }

  function PublishTimeout(s: State, c: Config, now: real): (State, Option<Work>)
    requires |s.lidars| == 2
  {
    var choice := Fallback(s.lidars[0], s.lidars[1]);
    if choice.None? then (s, None)
    else
      var l := s.lidars[choice.value];
      var front := l.queue[0];
      if now - front.receivedAt < c.staleTimeout then (s, None)
      else
        (s.(lidars := s.lidars[choice.value := Consume(l, 0).(singleCount := l.singleCount + 1)], fallback := s.fallback + 1),
         Some(SingleTimeout(choice.value, front)))
  }

  function Select(s: State, c: Config, now: real): (State, Option<Work>)
    requires Configured(s, c)
  {
    if |s.lidars| == 1 then
      var l := s.lidars[0];
      if |l.queue| == 0 then (s, None)
      else (s.(lidars := [Consume(l, 0)]), Some(SingleConfig(l.queue[0])))
    else if PairReady(s.lidars[0].queue, s.lidars[1].queue, c) then PublishPair(s, c)
    else PublishTimeout(s, c, now)
  }

  ghost predicate WithinGap(a: seq<Frame>, b: seq<Frame>, c: Config) {
    exists x: nat, y: nat {:trigger a[x], b[y]} :: x < |a| && y < |b| && Gap(a[x], b[y]) <= c.maxPairGap
  }

  lemma PairReadyMeaning(a: seq<Frame>, b: seq<Frame>, c: Config)
    ensures PairReady(a, b, c) <==> WithinGap(a, b, c)
  {
    if |a| > 0 && |b| > 0 {
      ScanLeast(a, b, |a|, 0, 0, 0);
      if WithinGap(a, b, c) {
        var x: nat, y: nat :| x < |a| && y < |b| && Gap(a[x], b[y]) <= c.maxPairGap;
        ScanLeast(a, b, |a|, 0, x, y);
      }
    }
  }

  /**
   With two lidars a pair is published exactly when some queued pair is within the gap, and it is then
   a queued pair whose gap no queued pair undercuts; a single frame times out only when no queued pair
   is within the gap, and it is a front frame at least staleTimeout old.
   */
  lemma SelectMeaning(s: State, c: Config, now: real)
    requires Configured(s, c) && |s.lidars| == 2
    ensures var work := Select(s, c, now).1;
            var a, b := s.lidars[0].queue, s.lidars[1].queue;
            && (work.Some? && work.value.Paired? <==> WithinGap(a, b, c))
            && (work.Some? && work.value.Paired? ==>
                  && work.value.first in a && work.value.second in b
                  && forall f, g :: f in a && g in b ==> Gap(work.value.first, work.value.second) <= Gap(f, g))
            && (work.Some? && work.value.SingleTimeout? ==>
                  && work.value.lidar < 2
                  && |s.lidars[work.value.lidar].queue| > 0
                  && work.value.frame == s.lidars[work.value.lidar].queue[0]
                  && now - work.value.frame.receivedAt >= c.staleTimeout
                  && forall l :: l in s.lidars && |l.queue| > 0 ==> work.value.frame.receivedAt <= l.queue[0].receivedAt)
  {
    var a, b := s.lidars[0].queue, s.lidars[1].queue;
    PairReadyMeaning(a, b, c);
    if PairReady(a, b, c) {
      var best := Scan(a, b, |a|, 0).value;
      forall f, g | f in a && g in b ensures Gap(a[best.0], b[best.1]) <= Gap(f, g) {
        var x: nat :| x < |a| && a[x] == f;
        var y: nat :| y < |b| && b[y] == g;
        ScanLeast(a, b, |a|, 0, x, y);
      }
    }
  }

  /** The front frame of the lidar has waited for staleTimeout, and no front frame arrived before it. */
  ghost predicate TimedOut(s: State, c: Config, now: real, i: nat) {
    && i < |s.lidars| && |s.lidars[i].queue| > 0
    && now - s.lidars[i].queue[0].receivedAt >= c.staleTimeout
    && forall l :: l in s.lidars && |l.queue| > 0 ==> s.lidars[i].queue[0].receivedAt <= l.queue[0].receivedAt
  }

  /** What a frame leaves behind: the queues from it on are consumed, the others stay. */
  ghost predicate Leaves(q: seq<Frame>, rest: seq<Frame>, f: Frame) {
    exists k: nat :: k < |q| && q[k] == f && rest == q[k + 1..]
  }

  /**
   With two lidars a timer step publishes nothing exactly when no queued pair is within the gap and no front frame has
   timed out, and then changes nothing; a pair takes along every frame before it; a single frame takes only itself.
   */
  lemma SelectExactly(s: State, c: Config, now: real)
    requires Configured(s, c) && |s.lidars| == 2
    ensures var (t, work) := Select(s, c, now);
            var a, b := s.lidars[0].queue, s.lidars[1].queue;
            && |t.lidars| == 2
            && (work.None? <==> !WithinGap(a, b, c) && !TimedOut(s, c, now, 0) && !TimedOut(s, c, now, 1))
            && (work.None? ==> t == s)
            && (work.Some? && work.value.Paired? ==>
                  Leaves(a, t.lidars[0].queue, work.value.first) && Leaves(b, t.lidars[1].queue, work.value.second))
            && (work.Some? && work.value.SingleTimeout? ==>
                  var i := work.value.lidar;
                  && TimedOut(s, c, now, i) && s.lidars[i].queue == [work.value.frame] + t.lidars[i].queue
                  && t.lidars[1 - i].queue == s.lidars[1 - i].queue
                  && (TimedOut(s, c, now, 0) ==> i == 0))
            && (work.Some? ==> !work.value.SingleConfig?)
  {
    var a, b := s.lidars[0].queue, s.lidars[1].queue;
    PairReadyMeaning(a, b, c);
    SelectMeaning(s, c, now);
    assert s.lidars[0] in s.lidars && s.lidars[1] in s.lidars;
    assert forall l :: l in s.lidars ==> l == s.lidars[0] || l == s.lidars[1];
    if PairReady(a, b, c) {
      var best := Scan(a, b, |a|, 0).value;
      assert a[best.0] == a[best.0] && b[best.1] == b[best.1];
    }
  }

  /** With one lidar every step publishes the front frame, if there is one. */
  lemma SingleIsPublished(s: State, c: Config, now: real)
    requires Configured(s, c) && |s.lidars| == 1
    ensures var (t, work) := Select(s, c, now); var q := s.lidars[0].queue;
            && (work.None? <==> q == [])
            && (work.Some? ==> |t.lidars| == 1 && work.value.SingleConfig? && q == [work.value.frame] + t.lidars[0].queue)
  {}

  // ---------------------------------------------------------------- the object

  ghost predicate QueueOk(l: Lidar, c: Config) {
    |l.queue| <= c.maxQueue && Ascending(l.queue)
  }

  ghost predicate QueuesOk(s: State, c: Config) {
    Configured(s, c) && forall i :: 0 <= i < |s.lidars| ==> QueueOk(s.lidars[i], c)
  }

  lemma StoreKeepsQueues(s: State, c: Config, i: nat, stamp: real, receivedAt: real)
    requires QueuesOk(s, c)
    ensures QueuesOk(Store(s, c, i, stamp, receivedAt), c)
  {
    if i < |s.lidars| {
      var l := s.lidars[i];
      assert QueueOk(l, c);
      var f := Frame(l.nextSequence + 1, stamp, receivedAt);
      InsertKeeps(MakeRoom(l.queue, c.maxQueue), f);
      InsertAscending(MakeRoom(l.queue, c.maxQueue), f);
    }
  }

  lemma SelectKeepsQueues(s: State, c: Config, now: real)
    requires QueuesOk(s, c)
    ensures QueuesOk(Select(s, c, now).0, c)
  {
    assert QueueOk(s.lidars[0], c);
    if |s.lidars| == 2 {
      assert QueueOk(s.lidars[1], c);
    }
  }

  class Merger {
    const config: Config
    var lidars: seq<Lidar>
    var overflow: nat
    var superseded: nat
    var fallback: nat

    ghost function Current(): State
      reads this
    {
      State(lidars, overflow, superseded, fallback)
    }

    ghost predicate Valid()
      reads this
    {
      QueuesOk(Current(), config)
    }

    constructor (c: Config, count: nat)
      requires 1 <= count <= 2
      ensures Valid() && Current() == Initial(count)
      ensures config == c.(maxQueue := if c.maxQueue < 1 then 1 else c.maxQueue)
    {
      config := c.(maxQueue := if c.maxQueue < 1 then 1 else c.maxQueue);
      lidars := seq(count, i => EMPTY_LIDAR);
      overflow, superseded, fallback := 0, 0, 0;
    }

    /** The queue part of the subscriber callback. */
    method Enqueue(i: nat, stamp: real, receivedAt: real)
      requires Valid()
      modifies this
      ensures Valid() && Current() == Store(old(Current()), config, i, stamp, receivedAt)
    {
      StoreKeepsQueues(Current(), config, i, stamp, receivedAt);
      if i >= |lidars| {
        return;
      }
      var l := lidars[i];
      var f := Frame(l.nextSequence + 1, stamp, receivedAt);
      var queue := l.queue;
      assert QueueOk(l, config);
      if |queue| >= config.maxQueue {
        queue := queue[1..];
        overflow := overflow + 1;
      }
      var k := UpperBound(queue, stamp);
      InsertAtSplit(queue, f, k);
      queue := queue[..k] + [f] + queue[k..];
      lidars := lidars[i := l.(queue := queue, nextSequence := l.nextSequence + 1)];
    }

    /** The first half of the pair branch: the search, and consuming both queues when it is close enough. */
    method TryPair() returns (work: Option<Work>)
      requires Valid() && |lidars| == 2
      modifies this
      ensures var s := old(Current());
              if PairReady(s.lidars[0].queue, s.lidars[1].queue, config)
              then (Current(), work) == PublishPair(s, config)
              else Current() == s && work == None
    {
      work := None;
      var a, b := lidars[0], lidars[1];
      if |a.queue| > 0 && |b.queue| > 0 {
        var bestA, bestB := ClosestPair(a.queue, b.queue);
        if Gap(a.queue[bestA], b.queue[bestB]) <= config.maxPairGap {
          work := Some(Paired(a.queue[bestA], b.queue[bestB]));
          superseded := superseded + bestA + bestB;
          lidars := [Consume(a, bestA), Consume(b, bestB)];
        }
      }
    }

    method SelectPublishWork(now: real) returns (work: Option<Work>)
      requires Valid()
      modifies this
      ensures Valid() && (Current(), work) == Select(old(Current()), config, now)
    {
      SelectKeepsQueues(Current(), config, now);
      if |lidars| == 1 {
        var l := lidars[0];
        if |l.queue| == 0 {
          return None;
        }
        lidars := [Consume(l, 0)];
        return Some(SingleConfig(l.queue[0]));
      }
      work := TryPair();
      if work.Some? {
        return;
      }
      var choice := Fallback(lidars[0], lidars[1]);
      if choice.None? {
        return;
      }
      var l := lidars[choice.value];
      if now - l.queue[0].receivedAt < config.staleTimeout {
        return;
      }
      work := Some(SingleTimeout(choice.value, l.queue[0]));
      lidars := lidars[choice.value := Consume(l, 0).(singleCount := l.singleCount + 1)];
      fallback := fallback + 1;
    }
  }
}
