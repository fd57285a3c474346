/**
 Whole runs of the two-lidar synchroniser: every enqueued frame has exactly one fate, the counters
 agree with the fates, and in-order streams are published in stamp order.
 */
module MergerRuns {
  import opened Prelude
  import opened PointCloudMerger

  datatype Event = Arrival(lidar: nat, stamp: real, receivedAt: real) | Timer(now: real)

  /** Per lidar: what was enqueued, in order, and where frames that left the queue went, in order. */
  datatype Account = Account(enqueued: seq<Frame>, published: seq<Frame>, overflowed: seq<Frame>, superseded: seq<Frame>)

  /** The state, one account per lidar, and the work published so far. */
  datatype Trace = Trace(state: State, accounts: seq<Account>, works: seq<Work>)

  const NO_ACCOUNT := Account([], [], [], [])

  function Start(count: nat): Trace {
    Trace(Initial(count), seq(count, i => NO_ACCOUNT), [])
  }

  ghost predicate Shaped(t: Trace, c: Config) {
    QueuesOk(t.state, c) && |t.accounts| == |t.state.lidars|
  }

  function Enter(a: Account, before: Lidar, stamp: real, receivedAt: real, maxQueue: nat): Account {
    var f := Frame(before.nextSequence + 1, stamp, receivedAt);
    a.(enqueued := a.enqueued + [f],
       overflowed := if |before.queue| >= maxQueue && |before.queue| > 0 then a.overflowed + [before.queue[0]] else a.overflowed)
  }

  /** f was published out of queue: the frames in front of its position are superseded. */
  function Leave(a: Account, queue: seq<Frame>, left: nat, f: Frame): Account {
    a.(published := a.published + [f],
       superseded := if 0 < left <= |queue| then a.superseded + queue[..left - 1] else a.superseded)
  }

  /** How many frames left the front of a queue. */
  function Shrunk(before: Lidar, after: Lidar): nat {
    if |after.queue| <= |before.queue| then |before.queue| - |after.queue| else 0
  }

  function Settle(accounts: seq<Account>, before: State, after: State, work: Work): seq<Account>
    requires |accounts| == |before.lidars| == |after.lidars|
  {
    match work
    case SingleConfig(f) =>
      if |accounts| == 1 then [Leave(accounts[0], before.lidars[0].queue, Shrunk(before.lidars[0], after.lidars[0]), f)]
      else accounts
    case Paired(f, g) =>
      if |accounts| == 2 then
        [Leave(accounts[0], before.lidars[0].queue, Shrunk(before.lidars[0], after.lidars[0]), f),
         Leave(accounts[1], before.lidars[1].queue, Shrunk(before.lidars[1], after.lidars[1]), g)]
      else accounts
    case SingleTimeout(i, f) =>
      if i < |accounts| then
        accounts[i := Leave(accounts[i], before.lidars[i].queue, Shrunk(before.lidars[i], after.lidars[i]), f)]
      else accounts
  }

  ghost function Next(t: Trace, c: Config, e: Event): Trace
    requires Shaped(t, c)
  {
    match e
    case Arrival(i, stamp, receivedAt) =>
      if i >= |t.accounts| then t
      else
        t.(state := Store(t.state, c, i, stamp, receivedAt),
           accounts := t.accounts[i := Enter(t.accounts[i], t.state.lidars[i], stamp, receivedAt, c.maxQueue)])
    case Timer(now) =>
      var (after, work) := Select(t.state, c, now);
      if work.None? then t.(state := after)
      else t.(state := after, accounts := Settle(t.accounts, t.state, after, work.value), works := t.works + [work.value])
  }

  lemma NextShaped(t: Trace, c: Config, e: Event)
    requires Shaped(t, c)
    ensures Shaped(Next(t, c, e), c)
  {
    match e
    case Arrival(i, stamp, receivedAt) => StoreKeepsQueues(t.state, c, i, stamp, receivedAt);
    case Timer(now) => SelectKeepsQueues(t.state, c, now);
  }

  /** After any interleaving of arrivals and timer steps the queues are stamp-sorted and bounded. */
  ghost function After(run: seq<Event>, c: Config, count: nat): (t: Trace)
    requires c.maxQueue >= 1 && 1 <= count <= 2
    ensures Shaped(t, c) && |t.accounts| == count
  {
    if |run| == 0 then Start(count)
    else
      var t := After(run[..|run| - 1], c, count);
      NextShaped(t, c, run[|run| - 1]);
      Next(t, c, run[|run| - 1])
  }

  // ---------------------------------------------------------------- one fate per frame

  ghost function Fates(l: Lidar, a: Account): multiset<Frame> {
    multiset(l.queue) + multiset(a.published) + multiset(a.overflowed) + multiset(a.superseded)
  }

  ghost predicate Balanced(l: Lidar, a: Account) {
    && Fates(l, a) == multiset(a.enqueued)
    && l.nextSequence == |a.enqueued|
    && forall k :: 0 <= k < |a.enqueued| ==> a.enqueued[k].sequence == k + 1
  }

  lemma RoomKeeps(q: seq<Frame>, maxQueue: nat)
    requires maxQueue >= 1
    ensures multiset(q) == multiset(MakeRoom(q, maxQueue)) + if |q| >= maxQueue then multiset{q[0]} else multiset{}
  {
    if |q| >= maxQueue {
      assert q == [q[0]] + q[1..];
    }
  }

  lemma {:induction false} EnterFates(l: Lidar, a: Account, f: Frame, maxQueue: nat, l': Lidar)
    requires maxQueue >= 1 && f == Frame(l.nextSequence + 1, f.stamp, f.receivedAt)
    requires l'.queue == Insert(MakeRoom(l.queue, maxQueue), f)
    ensures Fates(l', Enter(a, l, f.stamp, f.receivedAt, maxQueue)) == Fates(l, a) + multiset{f}
  {
    InsertKeeps(MakeRoom(l.queue, maxQueue), f);
    RoomKeeps(l.queue, maxQueue);
  }

  lemma {:induction false} EnterBalanced(l: Lidar, a: Account, f: Frame, maxQueue: nat, l': Lidar)
    requires Balanced(l, a) && maxQueue >= 1 && f == Frame(l.nextSequence + 1, f.stamp, f.receivedAt)
    requires l'.queue == Insert(MakeRoom(l.queue, maxQueue), f) && l'.nextSequence == l.nextSequence + 1
    ensures Balanced(l', Enter(a, l, f.stamp, f.receivedAt, maxQueue))
  {
    EnterFates(l, a, f, maxQueue, l');
  }

  /** The k-th queued frame is published, those in front of it are superseded, the rest stays. */
  ghost predicate Taken(l: Lidar, a: Account, l': Lidar, a': Account, k: nat) {
    && k < |l.queue|
    && l'.queue == l.queue[k + 1..] && l'.nextSequence == l.nextSequence
    && a' == a.(published := a.published + [l.queue[k]], superseded := a.superseded + l.queue[..k])
  }

  ghost predicate Moved(l: Lidar, a: Account, l': Lidar, a': Account) {
    (l' == l && a' == a) || exists k: nat :: Taken(l, a, l', a', k)
  }

  lemma ConsumeTakes(l: Lidar, a: Account, k: nat, singles: nat, l': Lidar)
    requires k < |l.queue| && l' == Consume(l, k).(singleCount := singles)
    ensures Moved(l, a, l', Leave(a, l.queue, Shrunk(l, l'), l.queue[k]))
  {
    assert Shrunk(l, l') == k + 1;
    assert Taken(l, a, l', Leave(a, l.queue, Shrunk(l, l'), l.queue[k]), k);
  }

  lemma PairMoves(s: State, c: Config, accounts: seq<Account>)
    requires |s.lidars| == |accounts| == 2 && PairReady(s.lidars[0].queue, s.lidars[1].queue, c)
    ensures var (after, work) := PublishPair(s, c);
            var settled := Settle(accounts, s, after, work.value);
            && |settled| == 2
            && Moved(s.lidars[0], accounts[0], after.lidars[0], settled[0])
            && Moved(s.lidars[1], accounts[1], after.lidars[1], settled[1])
  {
    var a, b := s.lidars[0], s.lidars[1];
    var best := Scan(a.queue, b.queue, |a.queue|, 0).value;
    ConsumeTakes(a, accounts[0], best.0, a.singleCount, Consume(a, best.0));
    ConsumeTakes(b, accounts[1], best.1, b.singleCount, Consume(b, best.1));
  }

  lemma TimeoutMoves(s: State, c: Config, now: real, accounts: seq<Account>, i: nat)
    requires |s.lidars| == |accounts| == 2 && i < 2
    requires PublishTimeout(s, c, now).1.Some?
    ensures var (after, work) := PublishTimeout(s, c, now);
            var settled := Settle(accounts, s, after, work.value);
            |settled| == 2 && Moved(s.lidars[i], accounts[i], after.lidars[i], settled[i])
  {
    var k := Fallback(s.lidars[0], s.lidars[1]).value;
    var l := s.lidars[k];
    ConsumeTakes(l, accounts[k], 0, l.singleCount + 1, Consume(l, 0).(singleCount := l.singleCount + 1));
  }

  /** A timer step leaves each lidar alone or takes one frame from its queue. */
  lemma TimerMoves(t: Trace, c: Config, now: real, i: nat)
    requires Shaped(t, c) && i < |t.accounts|
    ensures var u := Next(t, c, Timer(now));
            |u.accounts| == |u.state.lidars| == |t.accounts| && Moved(t.state.lidars[i], t.accounts[i], u.state.lidars[i], u.accounts[i])
  {
    var s := t.state;
    if |s.lidars| == 1 {
      if |s.lidars[0].queue| > 0 {
        ConsumeTakes(s.lidars[0], t.accounts[0], 0, s.lidars[0].singleCount, Consume(s.lidars[0], 0));
      }
    } else if PairReady(s.lidars[0].queue, s.lidars[1].queue, c) {
      PairMoves(s, c, t.accounts);
    } else if PublishTimeout(s, c, now).1.Some? {
      TimeoutMoves(s, c, now, t.accounts, i);
    }
  }

  lemma MovedBalanced(l: Lidar, a: Account, l': Lidar, a': Account)
    requires Balanced(l, a) && Moved(l, a, l', a')
    ensures Balanced(l', a')
  {
    if !(l' == l && a' == a) {
      var k: nat :| Taken(l, a, l', a', k);
      assert l.queue == l.queue[..k] + [l.queue[k]] + l.queue[k + 1..];
    }
  }

  ghost predicate AllBalanced(t: Trace) {
    |t.accounts| == |t.state.lidars| && forall i :: 0 <= i < |t.accounts| ==> Balanced(t.state.lidars[i], t.accounts[i])
  }

  lemma TimerBalanced(t: Trace, c: Config, now: real)
    requires Shaped(t, c) && AllBalanced(t)
    ensures AllBalanced(Next(t, c, Timer(now)))
  {
    var u := Next(t, c, Timer(now));
    NextShaped(t, c, Timer(now));
    forall i | 0 <= i < |u.accounts| ensures Balanced(u.state.lidars[i], u.accounts[i]) {
      TimerMoves(t, c, now, i);
      MovedBalanced(t.state.lidars[i], t.accounts[i], u.state.lidars[i], u.accounts[i]);
    }
  }

  lemma ArrivalBalanced(t: Trace, c: Config, e: Event)
    requires Shaped(t, c) && AllBalanced(t) && e.Arrival? && e.lidar < |t.accounts|
    ensures AllBalanced(Next(t, c, e))
  {
    var i := e.lidar;
    var l, u := t.state.lidars[i], Next(t, c, e);
    EnterBalanced(l, t.accounts[i], Frame(l.nextSequence + 1, e.stamp, e.receivedAt), c.maxQueue, u.state.lidars[i]);
    forall j | 0 <= j < |u.accounts| ensures Balanced(u.state.lidars[j], u.accounts[j]) {
      if j != i {
        assert Balanced(t.state.lidars[j], t.accounts[j]);
      }
    }
  }

  lemma {:induction false} RunBalanced(run: seq<Event>, c: Config, count: nat)
    requires c.maxQueue >= 1 && 1 <= count <= 2
    ensures AllBalanced(After(run, c, count))
  {
    if |run| > 0 {
      RunBalanced(run[..|run| - 1], c, count);
      var t, e := After(run[..|run| - 1], c, count), run[|run| - 1];
      match e
      case Arrival(i, _, _) =>
        if i < count {
          ArrivalBalanced(t, c, e);
        }
      case Timer(now) => TimerBalanced(t, c, now);
    }
  }

  lemma {:induction false} Serial(frames: seq<Frame>, k: nat)
    requires k < |frames|
    requires forall i :: 0 <= i < |frames| ==> frames[i].sequence == i + 1
    ensures multiset(frames)[frames[k]] == 1
  {
    var front, last := frames[..|frames| - 1], frames[|frames| - 1];
    assert frames == front + [last];
    if k < |front| {
      Serial(front, k);
    } else {
      assert last !in front;
    }
  }

  /** Each enqueued frame is in exactly one of queue, published, overflowed and superseded, and there once. */
  lemma {:induction false} ExactlyOneFate(run: seq<Event>, c: Config, count: nat, i: nat, k: nat)
    requires c.maxQueue >= 1 && 1 <= count <= 2 && i < count
    requires k < |After(run, c, count).accounts[i].enqueued|
    ensures var t := After(run, c, count);
            var l, a := t.state.lidars[i], t.accounts[i];
            var f := a.enqueued[k];
            multiset(l.queue)[f] + multiset(a.published)[f] + multiset(a.overflowed)[f] + multiset(a.superseded)[f] == 1
  {
    var t := After(run, c, count);
    RunBalanced(run, c, count);
    assert Balanced(t.state.lidars[i], t.accounts[i]);
    Serial(t.accounts[i].enqueued, k);
    assert Fates(t.state.lidars[i], t.accounts[i])[t.accounts[i].enqueued[k]] == 1;
  }

  /** Nothing is published, dropped or queued that was never enqueued. */
  lemma {:induction false} NothingInvented(run: seq<Event>, c: Config, count: nat, i: nat, f: Frame)
    requires c.maxQueue >= 1 && 1 <= count <= 2 && i < count
    requires var t := After(run, c, count);
             f in t.state.lidars[i].queue || f in t.accounts[i].published
             || f in t.accounts[i].overflowed || f in t.accounts[i].superseded
    ensures f in After(run, c, count).accounts[i].enqueued
  {
    var t := After(run, c, count);
    RunBalanced(run, c, count);
    assert Balanced(t.state.lidars[i], t.accounts[i]);
    assert f in Fates(t.state.lidars[i], t.accounts[i]);
  }

  // ---------------------------------------------------------------- the counters

  /** The totals over the one or two lidars. */
  function Overflowed(accounts: seq<Account>): nat {
    if |accounts| == 1 then |accounts[0].overflowed|
    else if |accounts| == 2 then |accounts[0].overflowed| + |accounts[1].overflowed|
    else 0
  }

  function Superseded(accounts: seq<Account>): nat {
    if |accounts| == 1 then |accounts[0].superseded|
    else if |accounts| == 2 then |accounts[0].superseded| + |accounts[1].superseded|
    else 0
  }

  function Singles(lidars: seq<Lidar>): nat {
    if |lidars| == 1 then lidars[0].singleCount
    else if |lidars| == 2 then lidars[0].singleCount + lidars[1].singleCount
    else 0
  }

  function Timeouts(works: seq<Work>): nat {
    if |works| == 0 then 0
    else Timeouts(works[..|works| - 1]) + if works[|works| - 1].SingleTimeout? then 1 else 0
  }

  ghost predicate Counted(t: Trace) {
    && t.state.overflow == Overflowed(t.accounts)
    && t.state.superseded == Superseded(t.accounts)
    && t.state.fallback == Singles(t.state.lidars) == Timeouts(t.works)
  }

  lemma ArrivalCounted(t: Trace, c: Config, e: Event)
    requires Shaped(t, c) && Counted(t) && e.Arrival?
    ensures Counted(Next(t, c, e))
  {}

  lemma PairCounted(s: State, c: Config, accounts: seq<Account>)
    requires |s.lidars| == |accounts| == 2 && PairReady(s.lidars[0].queue, s.lidars[1].queue, c)
    ensures var (after, work) := PublishPair(s, c);
            var settled := Settle(accounts, s, after, work.value);
            && after.overflow - s.overflow == Overflowed(settled) - Overflowed(accounts)
            && after.superseded - s.superseded == Superseded(settled) - Superseded(accounts)
            && after.fallback == s.fallback && Singles(after.lidars) == Singles(s.lidars)
  {
    var a, b := s.lidars[0], s.lidars[1];
    var best := Scan(a.queue, b.queue, |a.queue|, 0).value;
    assert Shrunk(a, Consume(a, best.0)) == best.0 + 1;
    assert Shrunk(b, Consume(b, best.1)) == best.1 + 1;
  }

  lemma TimeoutCounted(s: State, c: Config, now: real, accounts: seq<Account>)
    requires |s.lidars| == |accounts| == 2
    requires PublishTimeout(s, c, now).1.Some?
    ensures var (after, work) := PublishTimeout(s, c, now);
            var settled := Settle(accounts, s, after, work.value);
            && after.overflow == s.overflow && Overflowed(settled) == Overflowed(accounts)
            && after.superseded == s.superseded && Superseded(settled) == Superseded(accounts)
            && after.fallback - s.fallback == 1 == Singles(after.lidars) - Singles(s.lidars)
  {
    var k := Fallback(s.lidars[0], s.lidars[1]).value;
    var l := s.lidars[k];
    var after := PublishTimeout(s, c, now).0;
    assert Shrunk(l, after.lidars[k]) == 1;
    assert l.queue[..0] == [];
  }

  lemma {:induction false} TimeoutsGrow(works: seq<Work>, w: Work)
    ensures Timeouts(works + [w]) == Timeouts(works) + if w.SingleTimeout? then 1 else 0
  {
    assert (works + [w])[..|works|] == works;
  }

  lemma TimerCounted(t: Trace, c: Config, now: real)
    requires Shaped(t, c) && Counted(t)
    ensures Counted(Next(t, c, Timer(now)))
  {
    var s := t.state;
    var (after, work) := Select(s, c, now);
    if work.Some? {
      TimeoutsGrow(t.works, work.value);
    }
    if |s.lidars| == 1 {
      if |s.lidars[0].queue| > 0 {
        assert Shrunk(s.lidars[0], after.lidars[0]) == 1;
      }
    } else if PairReady(s.lidars[0].queue, s.lidars[1].queue, c) {
      PairCounted(s, c, t.accounts);
    } else if PublishTimeout(s, c, now).1.Some? {
      TimeoutCounted(s, c, now, t.accounts);
    }
  }

  /** The drop and fallback counters are the sizes of the fates they count. */
  lemma {:induction false} RunCounted(run: seq<Event>, c: Config, count: nat)
    requires c.maxQueue >= 1 && 1 <= count <= 2
    ensures Counted(After(run, c, count))
  {
    if |run| > 0 {
      RunCounted(run[..|run| - 1], c, count);
      var t, e := After(run[..|run| - 1], c, count), run[|run| - 1];
      match e
      case Arrival(_, _, _) => ArrivalCounted(t, c, e);
      case Timer(now) => TimerCounted(t, c, now);
    }
  }

  // ---------------------------------------------------------------- stamp order

  ghost predicate InOrder(a: Account) {
    Ascending(a.enqueued)
  }

  ghost predicate Behind(l: Lidar, a: Account) {
    && Ascending(a.published)
    && (forall f, g :: f in a.published && g in l.queue ==> f.stamp <= g.stamp)
    && (forall f :: f in l.queue || f in a.published ==> f in a.enqueued)
  }

  lemma EnterBehind(l: Lidar, a: Account, stamp: real, receivedAt: real, maxQueue: nat)
    requires Behind(l, a) && maxQueue >= 1
    requires InOrder(Enter(a, l, stamp, receivedAt, maxQueue))
    ensures var f := Frame(l.nextSequence + 1, stamp, receivedAt);
            Behind(l.(queue := Insert(MakeRoom(l.queue, maxQueue), f), nextSequence := l.nextSequence + 1),
                   Enter(a, l, stamp, receivedAt, maxQueue))
  {
    var f := Frame(l.nextSequence + 1, stamp, receivedAt);
    InsertKeeps(MakeRoom(l.queue, maxQueue), f);
    var e := a.enqueued + [f];
    forall g | g in a.published ensures g.stamp <= f.stamp {
      var k :| 0 <= k < |a.enqueued| && a.enqueued[k] == g;
      assert e[k].stamp <= e[|a.enqueued|].stamp;
    }
  }

  lemma MovedBehind(l: Lidar, a: Account, l': Lidar, a': Account)
    requires Behind(l, a) && Ascending(l.queue) && Moved(l, a, l', a')
    ensures Behind(l', a')
  {
    if !(l' == l && a' == a) {
      var k: nat :| Taken(l, a, l', a', k);
      forall i | 0 <= i < |a.published| ensures a.published[i].stamp <= l.queue[k].stamp {
        assert a.published[i] in a.published && l.queue[k] in l.queue;
      }
    }
  }

  ghost predicate AllBehind(t: Trace) {
    |t.accounts| == |t.state.lidars| && forall i :: 0 <= i < |t.accounts| ==> Behind(t.state.lidars[i], t.accounts[i])
  }

  lemma TimerBehind(t: Trace, c: Config, now: real)
    requires Shaped(t, c) && AllBehind(t)
    ensures AllBehind(Next(t, c, Timer(now)))
  {
    var u := Next(t, c, Timer(now));
    NextShaped(t, c, Timer(now));
    forall i | 0 <= i < |u.accounts| ensures Behind(u.state.lidars[i], u.accounts[i]) {
      TimerMoves(t, c, now, i);
      assert QueueOk(t.state.lidars[i], c);
      MovedBehind(t.state.lidars[i], t.accounts[i], u.state.lidars[i], u.accounts[i]);
    }
  }

  ghost predicate AllInOrder(t: Trace) {
    forall i :: 0 <= i < |t.accounts| ==> InOrder(t.accounts[i])
  }

  lemma InOrderBefore(t: Trace, c: Config, e: Event)
    requires Shaped(t, c) && AllInOrder(Next(t, c, e))
    ensures AllInOrder(t)
  {
    var u := Next(t, c, e);
    forall i | 0 <= i < |t.accounts| ensures InOrder(t.accounts[i]) {
      assert InOrder(u.accounts[i]);
      assert t.accounts[i].enqueued <= u.accounts[i].enqueued;
    }
  }

  lemma ArrivalBehind(t: Trace, c: Config, e: Event)
    requires Shaped(t, c) && AllBehind(t) && e.Arrival? && e.lidar < |t.accounts|
    requires AllInOrder(Next(t, c, e))
    ensures AllBehind(Next(t, c, e))
  {
    var i := e.lidar;
    var u := Next(t, c, e);
    assert InOrder(u.accounts[i]);
    EnterBehind(t.state.lidars[i], t.accounts[i], e.stamp, e.receivedAt, c.maxQueue);
    forall j | 0 <= j < |u.accounts| ensures Behind(u.state.lidars[j], u.accounts[j]) {
      if j != i {
        assert Behind(t.state.lidars[j], t.accounts[j]);
      }
    }
  }

  /** Lidars that deliver in stamp order are published in stamp order, whatever was dropped between. */
  lemma {:induction false} PublishedInOrder(run: seq<Event>, c: Config, count: nat)
    requires c.maxQueue >= 1 && 1 <= count <= 2
    requires AllInOrder(After(run, c, count))
    ensures AllBehind(After(run, c, count))
    ensures forall i :: 0 <= i < count ==> Ascending(After(run, c, count).accounts[i].published)
  {
    var u := After(run, c, count);
    if |run| > 0 {
      var t, e := After(run[..|run| - 1], c, count), run[|run| - 1];
      InOrderBefore(t, c, e);
      PublishedInOrder(run[..|run| - 1], c, count);
      match e {
        case Arrival(i, _, _) =>
          if i < count {
            ArrivalBehind(t, c, e);
          }
        case Timer(now) => TimerBehind(t, c, now);
      }
    }
    forall i | 0 <= i < count ensures Ascending(u.accounts[i].published) {
      assert Behind(u.state.lidars[i], u.accounts[i]);
    }
  }
}
