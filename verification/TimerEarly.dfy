/** When a timer can fire early over runs.  An Expire message pops its top without
    looking at the time, so all depends on the top still being the one that the
    poll thread woke up for. */
module TimerEarly {
  import opened Wrappers
  import opened Rankables
  import opened TimerSystem
  import opened TimerLifetime
  import opened TimerWakeup
  import opened TimerShortfalls
  import H = HeapTree
  import E = ExpireLoop

  // ----- what the timer of a wake-up needs -----

  /** The step takes `d` out of the heap of container `k`. */
  ghost predicate TakesOut(s: State, l: Label, k: Kind, d: Delegate) {
    Enabled(s, l) && InHeap(s, k, d) && !InHeap(Step(s, l), k, d)
  }

  /** The container of a delegate that leaves its heap has just had an Expire
      processed, or the delegate's own Remove. */
  lemma TakenOutByMessages(s: State, l: Label, k: Kind, d: Delegate)
    requires TakesOut(s, l, k, d)
    ensures (l == Fetch && (s.queue[0] == Remove(k, d) || s.queue[0] == Expire(k)))
         || (l == MsgStep && s.pc.Scan? && s.pc.c == k)
  {
    match l
    case Fetch => FetchTakesOut(s, k, d);
    case MsgStep =>
      if s.pc.Popped? {
        PoppedKeepsContainers(s);
      }
    case Stop(c) => StopIsQuiet(s, c, false);
    case Destroy(c) => StopIsQuiet(s, c, false);
    case _ =>
  }

  lemma FetchTakesOut(s: State, k: Kind, d: Delegate)
    requires s.pc == Idle && s.queue != [] && InHeap(s, k, d) && !InHeap(FetchMsg(s), k, d)
    ensures s.queue[0] == Remove(k, d) || s.queue[0] == Expire(k)
  {
    match s.queue[0]
    case Push(_, _) => PushTakesNothingOut(s, k, d);
    case Remove(_, _) => RemoveTakesOut(s, k, d);
    case Expire(c) =>
      if c != k {
        ExpireLeavesOther(s, c, k);
      }
  }

  lemma PushTakesNothingOut(s: State, k: Kind, d: Delegate)
    requires s.pc == Idle && s.queue != [] && s.queue[0].Push? && InHeap(s, k, d)
    ensures InHeap(FetchMsg(s), k, d)
  {
    FetchPushShape(s);
    H.PushConserves(s.Heap(s.queue[0].c), s.queue[0].d);
  }

  lemma ExpireLeavesOther(s: State, c: Kind, k: Kind)
    requires s.queue != [] && s.queue[0] == Expire(c) && k != c
    ensures FetchMsg(s).Heap(k) == s.Heap(k)
  {
    UpdateShape(s.(queue := s.queue[1..]), c, None, None);
  }

  lemma RemoveTakesOut(s: State, k: Kind, d: Delegate)
    requires s.pc == Idle && s.queue != [] && s.queue[0].Remove?
    requires InHeap(s, k, d) && !InHeap(FetchMsg(s), k, d)
    ensures s.queue[0] == Remove(k, d)
  {
    FetchRemoveForm(s);
    if k == s.queue[0].c {
      RemoveLosesOne(s.Heap(k), s.queue[0].d, d);
    }
  }

  lemma RemoveLosesOne(t: H.Tree, e: Delegate, d: Delegate)
    requires d in H.Elements(t) && d !in H.Elements(H.AfterRemove(t, e))
    ensures d == e
  {
    H.RemoveConserves(t, e);
  }

  lemma ClockGrows(s: State, l: Label)
    requires Enabled(s, l)
    ensures Earlier(s.clock, Step(s, l).clock)
  {
    match l
    case Stop(c) => StopKeepsClock(s, c, false);
    case Destroy(c) => StopKeepsClock(s, c, false);
    case Fetch =>
    case MsgStep =>
      if s.pc.Popped? && s.pc.d.id in s.objects && s.objects[s.pc.d.id].client.Some? {
        var c := s.objects[s.pc.d.id].client.value;
        if c in s.clients {
          StopKeepsClock(s, c, true);
        }
      }
    case _ =>
  }

  lemma StopKeepsClock(s: State, c: nat, byExpire: bool)
    requires c in s.clients
    ensures StopTimer(CountStop(s, c, byExpire), c).clock == s.clock
  {
  }

  /** `d` has stayed in the heap of `k` over all of `post`, which follows `pre`. */
  ghost predicate Stays(start: Timespec, pre: seq<Label>, post: seq<Label>, k: Kind, d: Delegate) {
    forall j :: 0 <= j < |post| ==> !TakesOut(Run(start, pre + post[..j]), post[j], k, d)
  }

  lemma {:induction false} StayedIsThere(start: Timespec, pre: seq<Label>, post: seq<Label>, k: Kind, d: Delegate)
    requires InHeap(Run(start, pre), k, d) && Stays(start, pre, post, k, d)
    ensures InHeap(Run(start, pre + post), k, d)
    ensures Earlier(Run(start, pre).clock, Run(start, pre + post).clock)
  {
    if post == [] {
      assert pre + post == pre;
    } else {
      var n := |post| - 1;
      var q, l := post[..n], post[n];
      StaysBefore(start, pre, post, k, d);
      StayedIsThere(start, pre, q, k, d);
      RunSnoc(start, pre, post);
      if Enabled(Run(start, pre + q), l) {
        ClockGrows(Run(start, pre + q), l);
      }
    }
  }

  lemma StaysBefore(start: Timespec, pre: seq<Label>, post: seq<Label>, k: Kind, d: Delegate)
    requires post != [] && Stays(start, pre, post, k, d)
    ensures var n := |post| - 1;
      Stays(start, pre, post[..n], k, d) && !TakesOut(Run(start, pre + post[..n]), post[n], k, d)
  {
    var q := post[..|post| - 1];
    forall j | 0 <= j < |q| ensures !TakesOut(Run(start, pre + q[..j]), q[j], k, d) {
      assert q[..j] == post[..j] && q[j] == post[j];
    }
  }

  lemma RunSnoc(start: Timespec, pre: seq<Label>, post: seq<Label>)
    requires post != []
    ensures var s, l := Run(start, pre + post[..|post| - 1]), post[|post| - 1];
      Run(start, pre + post) == if Enabled(s, l) then Step(s, l) else s
  {
    assert (pre + post)[..|pre + post| - 1] == pre + post[..|post| - 1];
  }

  /** A container is woken for its own top: the top of its heap is what the kernel
      timer that ran out was set for. */
  ghost predicate WokenForTop(s: State, evs: seq<Kind>, k: Kind) {
    Enabled(s, Wake(evs)) && k in evs && ArmedAtTop(s, k)
  }

  /** As long as the timer that a container was woken for stays in the heap, the
      top is due: whatever else is started, stopped or expires meanwhile. */
  lemma TopStaysDue(start: Timespec, pre: seq<Label>, evs: seq<Kind>, post: seq<Label>, k: Kind)
    requires WokenForTop(Run(start, pre), evs, k)
    requires Stays(start, pre, [Wake(evs)] + post, k, Run(start, pre).Heap(k).data)
    ensures var s := Run(start, pre + ([Wake(evs)] + post));
      s.Heap(k).Node? && E.IsDue(s.Heap(k).data, s.clock)
  {
    var s0, ls := Run(start, pre), pre + ([Wake(evs)] + post);
    var s, d := Run(start, ls), s0.Heap(k).data;
    assert InHeap(s0, k, d);
    StayedIsThere(start, pre, [Wake(evs)] + post, k, d);
    RunKeepsLife(start, ls);
    assert Ready(s0, k) && HeapOk(s, k);
    H.TopIsMaximal(s.Heap(k), d);
  }

  /** So an Expire that finds a top whose second has not come has one of these
      behind it: when the poll thread woke up, the container was empty, another
      Expire for it was on its way, or the message thread was at work on it; or
      since then the timer it woke up for was removed, or another Expire popped
      it. */
  lemma EarlyExpireHasACause(start: Timespec, pre: seq<Label>, evs: seq<Kind>, post: seq<Label>, k: Kind)
    requires Enabled(Run(start, pre), Wake(evs)) && k in evs
    requires var s := Run(start, pre + ([Wake(evs)] + post));
      s.Heap(k).Leaf? || !E.IsDue(s.Heap(k).data, s.clock)
    ensures var s0, ls := Run(start, pre), [Wake(evs)] + post;
      || s0.Heap(k).Leaf? || Expire(k) in s0.queue || BusyWith(s0.pc, k)
      || exists j :: 0 <= j < |ls| && TakesOut(Run(start, pre + ls[..j]), ls[j], k, s0.Heap(k).data)
  {
    var s0, ls := Run(start, pre), [Wake(evs)] + post;
    if ArmedAtTop(s0, k) {
      if Stays(start, pre, ls, k, s0.Heap(k).data) {
        TopStaysDue(start, pre, evs, post, k);
      }
    } else {
      RunKeepsWake(start, pre);
    }
  }

  // ----- each of the causes is real -----

  /** A timer, still attached, has been popped `n` seconds before its second. */
  ghost predicate FiresEarly(s: State, n: nat) {
    && s.pc.Popped? && s.pc.d.due.sec == s.clock.sec + n
    && s.Live(s.pc.d) && s.objects[s.pc.d.id].client.Some?
  }

  /** And its callback follows, by the next two steps of the message thread. */
  lemma PoppedCallsBack(start: Timespec, ls: seq<Label>)
    requires var s := Run(start, ls);
      s.pc.Popped? && s.Live(s.pc.d) && s.objects[s.pc.d.id].client.Some?
    ensures var s := Run(start, ls); var c, u := s.objects[s.pc.d.id].client.value, MsgEffect(s);
      && c in s.clients && u.pc == Stopped(s.pc.c, s.pc.now, c) && c in u.clients
      && c in MsgEffect(u).clients && MsgEffect(u).clients[c].callbacks == s.clients[c].callbacks + 1
  {
    var s := Run(start, ls);
    RunKeepsLife(start, ls);
    assert ObjectOk(s, s.pc.d.id);
    StopCountsBack(s, s.objects[s.pc.d.id].client.value);
  }

  lemma StopCountsBack(s: State, c: nat)
    requires c in s.clients
    ensures var u := StopTimer(CountStop(s, c, true), c);
      c in u.clients && u.clients[c].callbacks == s.clients[c].callbacks
  {
  }

  lemma WholeSeconds(t: Timespec, n: nat)
    requires t.nsec == 0
    ensures FutureTime(t, n * 1000) == Timespec(t.sec + n, 0)
  {
    assert n * 1000 / 1000 == n && n * 1000 % 1000 == 0;
  }

  /** Two timers, due at 10 and at 10 + n seconds, for clients 0 and 1. */
  predicate AreDue(d: Delegate, e: Delegate, n: nat) {
    d == Due(0, 10) && e == Due(1, 10 + n)
  }

  /** And it is 10 seconds. */
  function TenSeconds(d: Delegate, e: Delegate): State {
    TwoTimers(d, e).(clock := d.due)
  }

  lemma TenSecondsIsReached(d: Delegate, e: Delegate, n: nat)
    requires AreDue(d, e, n)
    ensures Reached(TwoTimers(d, e)) && Reached(TenSeconds(d, e))
  {
    WholeSeconds(Sec(0), 10);
    WholeSeconds(Sec(0), 10 + n);
    TwoTimersAreReached(d, 10 * 1000, e, (10 + n) * 1000);
    var s := Go(TwoTimers(d, e), Tick(d.due));
  }

  /** The first timer stopped and deleted, the container armed for the second, and
      an Expire still queued. */
  function OnlySecondLeft(d: Delegate, e: Delegate): State {
    TenSeconds(d, e).(clients := map[0 := IDLE_CLIENT.(starts := 1, stops := 1), 1 := Waiting(1)],
                      objects := map[1 := Attached(e)],
                      sw := Container(Single(e), Some(e.due), true), queue := [Expire(Sw)])
  }

  /** There the Expire pops the second timer. */
  lemma SecondPops(d: Delegate, e: Delegate, n: nat) returns (u: State)
    requires AreDue(d, e, n) && Reached(OnlySecondLeft(d, e))
    ensures Reached(u) && FiresEarly(u, n)
  {
    u := Go(OnlySecondLeft(d, e), Fetch);
  }

  function Stopping(d: Delegate, e: Delegate, queue: seq<Msg>): State {
    TenSeconds(d, e).(clients := map[0 := IDLE_CLIENT.(lockRef := 2, starts := 1, stops := 1), 1 := Waiting(1)],
                      objects := map[0 := Attached(d).(client := None, container := None), 1 := Attached(e)],
                      queue := queue)
  }

  lemma FirstIsRemoved(s: State, d: Delegate, e: Delegate) returns (u: State)
    requires Reached(s) && d != e && s.sw.heap == H.Node(d, 2, Single(e), H.Leaf)
    requires s == Stopping(d, e, s.queue).(sw := s.sw) && s.queue != [] && s.queue[0] == Remove(Sw, d)
    ensures Reached(u)
    ensures u == Stopping(d, e, s.queue[1..]).(
      sw := s.sw.(heap := Single(e)), pc := Update(Sw, Some(e.due), false, Some(d)))
  {
    assert H.Pop(Single(e)) == H.Leaf;
    assert H.AfterRemove(s.sw.heap, d) == Single(e);
    u := Go(s, Fetch);
  }

  lemma FirstIsDeleted(s: State, d: Delegate, e: Delegate)
    requires Reached(s) && d.id == 0 && s.queue == [Expire(Sw)]
    requires s == Stopping(d, e, s.queue).(
      sw := s.sw.(heap := Single(e)), pc := Update(Sw, Some(e.due), false, Some(d)))
    ensures Reached(OnlySecondLeft(d, e))
  {
    var u := KernelIsSet(s);
    u := Go(u, MsgStep);
    assert u.objects == map[1 := Attached(e)];
    assert u == OnlySecondLeft(d, e);
  }

  /** Cause: the timer that is woken for is stopped after the wake-up.  Its Remove
      is queued ahead of the Expire, which then finds the next timer on top. */
  lemma EarlyAfterRemove(n: nat) returns (s: State)
    ensures Reached(s) && FiresEarly(s, n)
  {
    var d, e := Due(0, 10), Due(1, 10 + n);
    s := StopAfterWake(d, e, n);
    s := FirstIsRemoved(s, d, e);
    FirstIsDeleted(s, d, e);
    s := SecondPops(d, e, n);
  }

  lemma StopAfterWake(d: Delegate, e: Delegate, n: nat) returns (s: State)
    requires AreDue(d, e, n)
    ensures Reached(s)
    ensures s == Stopping(d, e, [Remove(Sw, d), Expire(Sw)]).(
      sw := Container(H.Node(d, 2, Single(e), H.Leaf), None, false))
  {
    TenSecondsIsReached(d, e, n);
    s := Go(TenSeconds(d, e), Wake([Sw]));
    s := Go(s, Stop(0));
    assert s == Stopping(d, e, [Remove(Sw, d)]).(poll := Poll([Sw], 0));
    s := PollSends(s, Sw);
  }

  /** Cause: the message thread is at work.  The top has been removed, but the
      kernel timer not yet set for the next one, when it runs out. */
  lemma EarlyDuringUpdate(n: nat) returns (s: State)
    ensures Reached(s) && FiresEarly(s, n)
  {
    var d, e := Due(0, 10), Due(1, 10 + n);
    TenSecondsIsReached(d, e, n);
    s := StopAtRest(d, e);
    s := FirstIsRemoved(s, d, e);
    s := ExpireIsSent(s, Sw);
    FirstIsDeleted(s, d, e);
    s := SecondPops(d, e, n);
  }

  lemma StopAtRest(d: Delegate, e: Delegate) returns (s: State)
    requires Reached(TenSeconds(d, e)) && d.id == 0
    ensures Reached(s) && s == Stopping(d, e, [Remove(Sw, d)])
  {
    s := Go(TenSeconds(d, e), Stop(0));
  }

  /** Cause: the container is empty, and its kernel timer was never disarmed. */
  lemma EarlyAfterEmpty(n: nat) returns (s: State)
    ensures Reached(s) && FiresEarly(s, n)
  {
    var d, e := Due(0, 10), Due(1, 10 + n);
    WholeSeconds(Sec(0), 10);
    WholeSeconds(d.due, n);
    s := StaleExpirePops(d, 10 * 1000, e, n * 1000, n);
  }

  lemma StaleExpirePops(d: Delegate, a: nat, e: Delegate, b: nat, n: nat) returns (s: State)
    requires AreDue(d, e, n) && d.due == FutureTime(Sec(0), a) && e.due == FutureTime(d.due, b)
    ensures Reached(s) && FiresEarly(s, n)
  {
    StoppedEmptyIsReached(d, a);
    s := StartsOnEmpty(d, e, b);
    s := PushedOnEmpty(s, e);
    s := Go(s, Fetch);
  }

  lemma StartsOnEmpty(d: Delegate, e: Delegate, ms: nat) returns (s: State)
    requires Reached(StoppedEmpty(d)) && d.due.Normalised() && Earlier(Sec(0), d.due)
    requires e.id == 1 && e.due == FutureTime(d.due, ms)
    ensures Reached(s) && s.pc == Idle && s.sw.heap == H.Leaf && s.queue == [Push(Sw, e), Expire(Sw)]
    ensures s.clock == d.due && 1 in s.objects && s.objects[1] == Attached(e)
  {
    s := Go(StoppedEmpty(d), Tick(d.due));
    s := Starts(s, e, ms);
    s := ExpireIsSent(s, Sw);
  }

  lemma PushedOnEmpty(s: State, e: Delegate) returns (u: State)
    requires Reached(s) && s.pc == Idle && s.sw.heap == H.Leaf && s.queue != [] && s.queue[0] == Push(Sw, e)
    ensures Reached(u) && u == s.(sw := Container(Single(e), Some(e.due), true), queue := s.queue[1..])
  {
    assert H.Push(H.Leaf, e) == Single(e);
    u := Go(s, Fetch);
    u := KernelIsSet(u);
  }

  // Cause: another Expire is on its way.  Nobody stops anything here: a third
  // timer, due at 9 seconds, is pushed while the poll thread is between waking up
  // and sending, so that it wakes up a second time.

  function Third(d: Delegate, e: Delegate, f: Delegate): State {
    TenSeconds(d, e).(clients := map[0 := Waiting(0), 1 := Waiting(1), 2 := Waiting(2)],
                      objects := map[0 := Attached(d), 1 := Attached(e), 2 := Attached(f)],
                      sw := Container(H.Node(f, 3, Single(e), Single(d)), Some(f.due), true),
                      queue := [Expire(Sw)], nextId := 3)
  }

  lemma ThirdStarts(d: Delegate, e: Delegate, f: Delegate, n: nat) returns (s: State)
    requires AreDue(d, e, n) && f == Due(2, 9)
    ensures Reached(s) && s == Third(d, e, f).(sw := TenSeconds(d, e).sw, queue := [Push(Sw, f)])
  {
    TenSecondsIsReached(d, e, n);
    WholeSeconds(f.due, 0);
    s := Go(TwoTimers(d, e), NewClient(2));
    s := Go(s, Tick(f.due));
    s := Starts(s, f, 0 * 1000);
    s := Go(s, Tick(d.due));
  }

  lemma ThirdIsReached(d: Delegate, e: Delegate, f: Delegate, n: nat)
    requires AreDue(d, e, n) && f == Due(2, 9)
    ensures Reached(Third(d, e, f))
  {
    var s := ThirdStarts(d, e, f, n);
    s := ExpireIsSent(s, Sw);
    ThirdIsPushed(s, d, e, f);
  }

  lemma ThirdIsPushed(s: State, d: Delegate, e: Delegate, f: Delegate)
    requires Reached(s) && f.due.sec < d.due.sec
    requires s == Third(d, e, f).(sw := Container(H.Node(d, 2, Single(e), H.Leaf), None, false),
                                  queue := [Push(Sw, f), Expire(Sw)])
    ensures Reached(Third(d, e, f))
  {
    assert H.Push(H.Leaf, d) == Single(d);
    assert H.Push(H.Node(d, 2, Single(e), H.Leaf), f) == H.Node(f, 3, Single(e), Single(d));
    var u := Go(s, Fetch);
    u := KernelIsSet(u);
    assert u == Third(d, e, f);
  }

  /** The first of the two Expire messages pops the third timer and the first. */
  lemma FirstExpire(d: Delegate, e: Delegate, f: Delegate, n: nat) returns (s: State)
    requires AreDue(d, e, n) && f == Due(2, 9) && n > 0
    ensures Reached(s) && s.pc == Idle && s.clock == d.due && s.sw.heap == Single(e)
    ensures s.queue != [] && s.queue[0] == Expire(Sw) && 1 in s.objects && s.objects[1] == Attached(e)
  {
    ThirdIsReached(d, e, f, n);
    s := ExpireIsSent(Third(d, e, f), Sw);
    PopThird(d, e, f);
    s := TopExpires(s, f);
    s := NextExpires(s, d, e);
    s := Go(s, MsgStep);
    s := KernelIsSet(s);
  }

  lemma PopThird(d: Delegate, e: Delegate, f: Delegate)
    requires d.due.sec <= e.due.sec
    ensures H.Pop(Single(e)) == H.Leaf
    ensures H.Pop(H.Node(f, 3, Single(e), Single(d))) == H.Node(d, 2, Single(e), H.Leaf)
  {
    assert H.Pop(Single(d)) == H.Leaf;
  }

  /** The loop goes on with the next timer, which is due. */
  lemma NextExpires(s: State, d: Delegate, e: Delegate) returns (u: State)
    requires Reached(s) && s.pc.Scan? && s.pc.c == Sw && s.sw.heap == H.Node(d, 2, Single(e), H.Leaf)
    requires d.due.sec <= s.pc.now.sec && H.Pop(Single(e)) == H.Leaf
    requires d.id == 0 && e.id == 1 && 0 in s.clients && s.clients[0].timer == Some(0)
    requires 0 in s.objects && s.objects[0] == Attached(d) && 1 in s.objects && s.objects[1] == Attached(e)
    ensures Reached(u) && u.pc == s.pc && u.sw == s.sw.(heap := Single(e)) && u.hw == s.hw && u.clock == s.clock
    ensures u.queue == s.queue + [Remove(Sw, d)] && 1 in u.objects && u.objects[1] == Attached(e)
  {
    u := Go(s, MsgStep);
    u := Go(u, MsgStep);
    u := Go(u, MsgStep);
  }

  /** The second Expire then pops the second timer, `n` seconds early. */
  lemma EarlyAfterExpire(n: nat) returns (s: State)
    requires n > 0
    ensures Reached(s) && FiresEarly(s, n)
  {
    s := FirstExpire(Due(0, 10), Due(1, 10 + n), Due(2, 9), n);
    s := Go(s, Fetch);
  }
}
