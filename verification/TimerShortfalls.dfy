/** Three things one might expect of the timers and that do not hold: that a
    container is armed in time for everything it holds, that an empty container
    leaves no kernel timer behind, and that no timer fires early.  Each with the
    exact condition, or with what has to go before, and with runs that show it. */
module TimerShortfalls {
  import opened Wrappers
  import opened Rankables
  import opened TimerSystem
  import opened TimerLifetime
  import opened TimerWakeup
  import H = HeapTree

  // ----- armed too late -----

  /** Armed at its top, a container is in time for everything it holds exactly if
      nothing in the second of its top comes before it. */
  lemma ArmedInTimeExactly(start: Timespec, ls: seq<Label>, k: Kind)
    requires start.Normalised() && ArmedAtTop(Run(start, ls), k)
    ensures var s := Run(start, ls); var top := s.Heap(k).data;
      (forall d :: InHeap(s, k, d) ==> s.At(k).armed.value.Nanos() <= d.due.Nanos()) <==>
      (forall d :: InHeap(s, k, d) && d.due.sec == top.due.sec ==> top.due.nsec <= d.due.nsec)
  {
    var s := Run(start, ls);
    RunKeepsLife(start, ls);
    RunKeepsDue(start, ls);
    forall d | InHeap(s, k, d) ensures InTimeFor(s.Heap(k).data, d) {
      TopIsInTime(s, k, d);
    }
  }

  predicate InTimeFor(top: Delegate, d: Delegate) {
    top.due.Nanos() <= d.due.Nanos() <==> (d.due.sec == top.due.sec ==> top.due.nsec <= d.due.nsec)
  }

  lemma TopIsInTime(s: State, k: Kind, d: Delegate)
    requires HeapOk(s, k) && DueOk(s) && InHeap(s, k, d)
    ensures InTimeFor(s.Heap(k).data, d)
  {
    var top := s.Heap(k).data;
    assert InHeap(s, k, top) && LiveIn(s, k, top) && LiveIn(s, k, d);
    H.TopIsMaximal(s.Heap(k), d);
    EarlierIsLess(top.due, d.due);
  }

  /** Comparing seconds first is comparing nanoseconds. */
  lemma EarlierIsLess(a: Timespec, b: Timespec)
    requires a.Normalised() && b.Normalised()
    ensures Earlier(a, b) <==> a.Nanos() <= b.Nanos()
  {
  }

  // ----- still armed when empty -----

  /** Nothing but the poll thread changes the kernel timer of a container that is
      empty, or that the step empties: whatever was set for the last timer that
      was removed stays set. */
  lemma EmptyContainerStaysArmed(start: Timespec, ls: seq<Label>, l: Label, k: Kind)
    requires Enabled(Run(start, ls), l) && l != PollStep
    requires var s := Run(start, ls); s.Heap(k).Leaf? || Step(s, l).Heap(k).Leaf?
    ensures var s := Run(start, ls);
      Step(s, l).At(k).armed == s.At(k).armed && Step(s, l).At(k).polled == s.At(k).polled
  {
    RunKeepsWake(start, ls);
    KernelMoves(Run(start, ls), l, k);
  }

  /** Outside the poll thread only an update sets the kernel timer. */
  lemma KernelMoves(s: State, l: Label, k: Kind)
    requires Enabled(s, l) && l != PollStep && UpdateOk(s)
    ensures var u := Step(s, l);
      (u.At(k).armed != s.At(k).armed || u.At(k).polled != s.At(k).polled) ==>
        l == MsgStep && s.pc.Update? && s.pc.c == k && s.Heap(k).Node? && u.Heap(k) == s.Heap(k)
  {
    match l
    case Fetch => FetchKeepsKernel(s, k);
    case MsgStep =>
      if s.pc.Popped? {
        PoppedKeepsContainers(s);
      }
    case Stop(c) => StopIsQuiet(s, c, false);
    case Destroy(c) => StopIsQuiet(s, c, false);
    case _ =>
  }

  lemma PoppedKeepsContainers(s: State)
    requires s.pc.Popped?
    ensures MsgEffect(s).sw == s.sw && MsgEffect(s).hw == s.hw
  {
    if s.pc.d.id in s.objects && s.objects[s.pc.d.id].client.Some? {
      var c := s.objects[s.pc.d.id].client.value;
      if c in s.clients {
        StopIsQuiet(s, c, true);
      }
    }
  }

  lemma FetchKeepsKernel(s: State, k: Kind)
    requires s.queue != []
    ensures FetchMsg(s).At(k).armed == s.At(k).armed && FetchMsg(s).At(k).polled == s.At(k).polled
  {
    var s1 := s.(queue := s.queue[1..]);
    match s.queue[0]
    case Push(c, d) => UpdateShape(s1.WithHeap(c, H.Push(s.Heap(c), d)), c, H.Peek(s.Heap(c)), None);
    case Remove(c, d) => UpdateShape(s1.WithHeap(c, H.AfterRemove(s.Heap(c), d)), c, None, Some(d));
    case Expire(c) => UpdateShape(s1, c, None, None);
  }

  // ----- states that runs reach -----

  ghost predicate Reached(s: State) {
    exists ls :: Run(Sec(0), ls) == s
  }

  function Sec(n: nat): Timespec {
    Timespec(n, 0)
  }

  lemma Begin() returns (s: State)
    ensures Reached(s) && s == Init(Sec(0))
  {
    s := Run(Sec(0), []);
  }

  lemma Go(s: State, l: Label) returns (u: State)
    requires Reached(s) && Enabled(s, l)
    ensures Reached(u) && u == Step(s, l)
  {
    var ls :| Run(Sec(0), ls) == s;
    assert (ls + [l])[..|ls|] == ls;
    u := Run(Sec(0), ls + [l]);
  }

  function Due(i: nat, sec: nat): Delegate {
    Delegate(i, Sec(sec))
  }

  /** A client whose only timer, `t`, is still to come, and that timer's object. */
  function Waiting(t: nat): Client {
    Client(true, Some(t), 2, 0, 1, 0, 0, 0)
  }

  function Attached(d: Delegate): Object {
    Object(d, Some(d.id), Some(Sw), Sw, d.id)
  }

  const IDLE_CLIENT := Client(true, None, 1, 0, 0, 0, 0, 0)
  const UNUSED := Container(H.Leaf, None, false)

  /** A start on a client that has not started anything; timers are numbered as
      their clients here. */
  lemma Starts(s: State, d: Delegate, ms: nat) returns (u: State)
    requires Reached(s) && d.id == s.nextId && d.due == FutureTime(s.clock, ms)
    requires d.id in s.clients && s.clients[d.id] == IDLE_CLIENT
    ensures Reached(u)
    ensures u == s.(clients := s.clients[d.id := Waiting(d.id)], objects := s.objects[d.id := Attached(d)],
                    nextId := s.nextId + 1).Send(Push(Sw, d))
  {
    u := Go(s, Start(d.id, ms, false));
  }

  function Single(d: Delegate): H.Tree {
    H.Node(d, 1, H.Leaf, H.Leaf)
  }

  /** Two clients, the timer of the first in its heap and the container armed
      for it. */
  function OneTimer(d: Delegate): State {
    State(map[0 := Waiting(0), 1 := IDLE_CLIENT], map[0 := Attached(d)],
          Container(Single(d), Some(d.due), true), UNUSED, [], Idle, Poll([], 0), Sec(0), 1)
  }

  lemma OneTimerIsReached(d: Delegate, ms: nat)
    requires d == Delegate(0, FutureTime(Sec(0), ms))
    ensures Reached(OneTimer(d))
  {
    var s := Begin();
    s := Go(s, NewClient(0));
    s := Go(s, NewClient(1));
    s := Starts(s, d, ms);
    assert H.Push(H.Leaf, d) == Single(d);
    s := Go(s, Fetch);
    s := KernelIsSet(s);
    assert s == OneTimer(d);
  }

  /** The second timer in the heap too, without having disturbed the top. */
  function TwoTimers(d: Delegate, e: Delegate): State {
    OneTimer(d).(clients := map[0 := Waiting(0), 1 := Waiting(1)],
                 objects := map[0 := Attached(d), 1 := Attached(e)],
                 sw := Container(H.Node(d, 2, Single(e), H.Leaf), Some(d.due), true), nextId := 2)
  }

  lemma TwoTimersAreReached(d: Delegate, a: nat, e: Delegate, b: nat)
    requires d == Delegate(0, FutureTime(Sec(0), a)) && e == Delegate(1, FutureTime(Sec(0), b))
    requires d.due.sec <= e.due.sec
    ensures Reached(TwoTimers(d, e))
  {
    OneTimerIsReached(d, a);
    var s := Starts(OneTimer(d), e, b);
    assert H.Push(H.Leaf, e) == Single(e);
    assert H.Push(Single(d), e) == H.Node(d, 2, Single(e), H.Leaf);
    s := Go(s, Fetch);
    assert s == TwoTimers(d, e);
  }

  /** Late by any number of milliseconds below a second: two timers of one second,
      the later one started first. */
  lemma ArmsLate(a: nat, b: nat) returns (s: State, d: Delegate)
    requires b < a < 1000
    ensures Reached(s) && AtRest(s) && ArmedAtTop(s, Sw) && InHeap(s, Sw, d)
    ensures s.sw.armed.value.Nanos() == d.due.Nanos() + (a - b) * 1_000_000
  {
    WithinFirstSecond(a);
    WithinFirstSecond(b);
    var top := Delegate(0, Timespec(0, a * 1_000_000));
    d := Delegate(1, Timespec(0, b * 1_000_000));
    TwoTimersAreReached(top, a, d, b);
    s := TwoTimers(top, d);
    assert d in H.Elements(Single(d));
  }

  lemma WithinFirstSecond(ms: nat)
    requires ms < 1000
    ensures FutureTime(Sec(0), ms) == Timespec(0, ms * 1_000_000)
  {
  }

  // ----- the two ways to run empty -----

  /** After the only timer was stopped: nothing left, and the kernel timer set. */
  function StoppedEmpty(d: Delegate): State {
    OneTimer(d).(
      clients := map[0 := IDLE_CLIENT.(starts := 1, stops := 1), 1 := IDLE_CLIENT], objects := map[],
      sw := Container(H.Leaf, Some(d.due), true))
  }

  lemma StoppedEmptyIsReached(d: Delegate, ms: nat)
    requires d == Delegate(0, FutureTime(Sec(0), ms))
    ensures Reached(StoppedEmpty(d))
  {
    OneTimerIsReached(d, ms);
    var s := Go(OneTimer(d), Stop(0));
    assert H.AfterRemove(Single(d), d) == H.Leaf;
    s := Go(s, Fetch);
    s := Go(s, MsgStep);
    assert s == StoppedEmpty(d);
  }

  lemma ExpiredEmpty(d: Delegate) returns (s: State)
    requires Reached(OneTimer(d)) && d.id == 0 && d.due.Normalised() && Earlier(Sec(0), d.due)
    ensures Reached(s) && AtRest(s) && s.sw == UNUSED && 0 in s.clients && s.clients[0].callbacks == 1
  {
    s := Go(OneTimer(d), Tick(d.due));
    s := ExpireIsSent(s, Sw);
    assert H.Pop(Single(d)) == H.Leaf;
    s := TopExpires(s, d);
    s := ExpiredIsDeleted(s, d);
  }

  lemma ExpiredIsDeleted(s: State, d: Delegate) returns (u: State)
    requires Reached(s) && s.pc.Scan? && s.pc.c == Sw && s.sw.heap == H.Leaf && s.queue == [Remove(Sw, d)]
    requires d.id in s.objects && s.objects[d.id].owner == d.id && d.id in s.clients
    ensures Reached(u) && u.pc == Idle && u.queue == [] && u.poll == s.poll && u.sw == s.sw
    ensures d.id in u.clients && u.clients[d.id].callbacks == s.clients[d.id].callbacks
  {
    u := Go(s, MsgStep);
    assert H.AfterRemove(H.Leaf, d) == H.Leaf;
    u := Go(u, Fetch);
    u := KernelStays(u, d);
  }

  lemma KernelStays(s: State, d: Delegate) returns (u: State)
    requires Reached(s) && s.pc == Deleting(d)
    requires d.id in s.objects && s.objects[d.id].owner == d.id && d.id in s.clients
    ensures Reached(u) && u.pc == Idle && u.queue == s.queue && u.poll == s.poll && u.sw == s.sw
    ensures d.id in u.clients && u.clients[d.id].callbacks == s.clients[d.id].callbacks
  {
    u := Go(s, MsgStep);
  }

  /** An empty container at rest has its kernel timer set when its last timer was
      stopped, and not when it expired: whatever time the timer was started for. */
  lemma EmptyEitherWay(ms: nat) returns (s: State, u: State)
    ensures Reached(s) && AtRest(s) && s.sw == Container(H.Leaf, Some(FutureTime(Sec(0), ms)), true)
    ensures Reached(u) && AtRest(u) && u.sw == UNUSED && 0 in u.clients && u.clients[0].callbacks == 1
  {
    var d := FirstTimer(ms);
    s := StoppedEmpty(d);
    u := ExpiredEmpty(d);
  }

  lemma FirstTimer(ms: nat) returns (d: Delegate)
    ensures Reached(OneTimer(d)) && Reached(StoppedEmpty(d)) && d.id == 0
    ensures d.due == FutureTime(Sec(0), ms) && d.due.Normalised() && Earlier(Sec(0), d.due)
  {
    d := Delegate(0, FutureTime(Sec(0), ms));
    FutureTimeIsLater(Sec(0), ms);
    OneTimerIsReached(d, ms);
    StoppedEmptyIsReached(d, ms);
  }

  lemma FutureTimeIsLater(now: Timespec, ms: nat)
    requires now.Normalised()
    ensures FutureTime(now, ms).Normalised() && Earlier(now, FutureTime(now, ms))
  {
    FutureTimeIsExact(now, ms);
    EarlierIsLess(now, FutureTime(now, ms));
  }

  /** The poll thread wakes up for a container and does all it has to do. */
  lemma ExpireIsSent(s: State, k: Kind) returns (u: State)
    requires Reached(s) && Enabled(s, Wake([k])) && s.poll == Poll([], 0)
    ensures Reached(u) && u == s.With(k, Container(s.Heap(k), None, false)).Send(Expire(k))
  {
    u := Go(s, Wake([k]));
    u := PollSends(u, k);
  }

  /** What is left to do after waking up. */
  lemma PollSends(s: State, k: Kind) returns (u: State)
    requires Reached(s) && s.poll == Poll([k], 0)
    ensures Reached(u)
    ensures u == s.With(k, Container(s.Heap(k), None, false)).Send(Expire(k)).(poll := Poll([], 0))
  {
    u := Go(s, PollStep);
    u := Go(u, PollStep);
    u := Go(u, PollStep);
  }

  /** The message thread sets the kernel timer for a new top. */
  lemma KernelIsSet(s: State) returns (u: State)
    requires Reached(s) && s.pc.Update? && !s.pc.epollDone && s.pc.arm.Some?
    ensures Reached(u)
    ensures u == Finish(s.With(s.pc.c, Container(s.Heap(s.pc.c), s.pc.arm, true)), s.pc.victim)
  {
    u := Go(s, MsgStep);
    u := Go(u, MsgStep);
  }

  /** The next message is an Expire; it pops its top and calls the client back. */
  lemma TopExpires(s: State, d: Delegate) returns (u: State)
    requires Reached(s) && s.pc == Idle && s.queue != [] && s.queue[0] == Expire(Sw)
    requires s.sw.heap.Node? && d == s.sw.heap.data
    requires d.id in s.clients && s.clients[d.id].timer == Some(d.id) && d.id in s.objects && s.objects[d.id] == Attached(d)
    ensures Reached(u)
    ensures var cl := s.clients[d.id];
      u == s.(sw := Container(H.Pop(s.sw.heap), s.sw.armed, s.sw.polled),
              clients := s.clients[d.id := cl.(timer := None, expireStops := cl.expireStops + 1,
                                               callbacks := cl.callbacks + 1)],
              objects := s.objects[d.id := Attached(d).(client := None, container := None)],
              queue := s.queue[1..] + [Remove(Sw, d)], pc := Scan(Sw, s.clock))
  {
    u := Go(s, Fetch);
    u := Go(u, MsgStep);
    u := Go(u, MsgStep);
  }
}
