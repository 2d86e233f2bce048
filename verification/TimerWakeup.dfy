/** No lost wake-up: whatever the threads do, a container that holds timers is
    armed for its top, or something under way will arm it again. */
module TimerWakeup {
  import opened Wrappers
  import opened Rankables
  import opened TimerSystem
  import opened TimerLifetime
  import H = HeapTree

  // ----- the invariant -----

  ghost predicate ArmedAtTop(s: State, k: Kind) {
    s.Heap(k).Node? && s.At(k).polled && s.At(k).armed == Some(s.Heap(k).data.due)
  }

  /** The poll thread or a queued message will bring an Expire for `k`. */
  ghost predicate ExpireComing(s: State, k: Kind) {
    k in s.poll.pending || Expire(k) in s.queue
  }

  /** The message thread is inside work that ends by arming `k`. */
  ghost predicate BusyWith(pc: Pc, k: Kind) {
    match pc
    case Update(c, arm, _, _) => c == k && arm.Some?
    case Popped(c, _, _) => c == k
    case Stopped(c, _, _) => c == k
    case Scan(c, _) => c == k
    case _ => false
  }

  ghost predicate Covered(s: State, k: Kind) {
    s.Heap(k).Leaf? || ArmedAtTop(s, k) || ExpireComing(s, k) || BusyWith(s.pc, k)
  }

  /** An update under way arms for the current top, and nobody takes the
      container out of epoll behind its back without an Expire to follow. */
  ghost predicate UpdateOk(s: State) {
    s.pc.Update? ==>
      && s.Heap(s.pc.c).Node? && s.pc.arm == Some(s.Heap(s.pc.c).data.due)
      && (s.pc.epollDone ==> s.At(s.pc.c).polled || ExpireComing(s, s.pc.c))
  }

  ghost predicate WakeInv(s: State) {
    Covered(s, Sw) && Covered(s, Hw) && UpdateOk(s)
  }

  // ----- the steps -----

  /** Heaps, kernel state and the message thread stay; the queue may grow. */
  lemma QuietKeepsWake(s: State, u: State)
    requires WakeInv(s) && u.sw == s.sw && u.hw == s.hw && u.pc == s.pc && u.poll == s.poll
    requires forall m :: m in s.queue ==> m in u.queue
    ensures WakeInv(u)
  {
    assert forall k: Kind :: u.At(k) == s.At(k);
  }

  lemma StopIsQuiet(s: State, c: nat, byExpire: bool)
    requires c in s.clients
    ensures var u := StopTimer(CountStop(s, c, byExpire), c);
      && u.sw == s.sw && u.hw == s.hw && u.pc == s.pc && u.poll == s.poll
      && forall m :: m in s.queue ==> m in u.queue
  {
  }

  /** What `updateSoonestTime` leaves behind covers the container, whenever the
      top it was told about is the one the timerfd may be set to. */
  lemma BeginUpdateCovers(s: State, k: Kind, priorTop: Option<Delegate>, victim: Option<Delegate>)
    requires priorTop.Some? ==>
      s.Heap(k).Node? && (s.Heap(k).data == priorTop.value
        || OutRanks(s.Heap(k).data, priorTop.value))
    requires priorTop.Some? && s.Heap(k).data == priorTop.value ==>
      ArmedAtTop(s, k) || ExpireComing(s, k)
    ensures var u := BeginUpdate(s, k, priorTop, victim);
      && u == s.(pc := u.pc) && Covered(u, k) && UpdateOk(u)
      && (u.pc.Update? ==> u.pc.c == k && !u.pc.epollDone)
  {
  }

  ghost function Other(k: Kind): Kind {
    if k == Sw then Hw else Sw
  }

  lemma OtherStaysCovered(s: State, u: State, k: Kind)
    requires Covered(s, Other(k)) && u.At(Other(k)) == s.At(Other(k)) && u.poll == s.poll
    requires !BusyWith(s.pc, Other(k))
    requires Expire(Other(k)) in s.queue ==> Expire(Other(k)) in u.queue
    ensures Covered(u, Other(k))
  {
  }

  lemma FetchPushWake(s: State)
    requires WakeInv(s) && s.pc == Idle && s.queue != [] && s.queue[0].Push?
    ensures WakeInv(FetchMsg(s))
  {
    var k, d, t := s.queue[0].c, s.queue[0].d, s.Heap(s.queue[0].c);
    InTail(s.queue);
    H.PushTop(t, d);
    var v := s.(queue := s.queue[1..]).WithHeap(k, H.Push(t, d));
    assert Covered(s, k);
    BeginUpdateCovers(v, k, H.Peek(t), None);
    OtherStaysCovered(s, FetchMsg(s), k);
  }

  lemma FetchRemoveWake(s: State)
    requires WakeInv(s) && s.pc == Idle && s.queue != [] && s.queue[0].Remove?
    ensures WakeInv(FetchMsg(s))
  {
    var k, d, t := s.queue[0].c, s.queue[0].d, s.Heap(s.queue[0].c);
    InTail(s.queue);
    var v := s.(queue := s.queue[1..]).WithHeap(k, H.AfterRemove(t, d));
    assert Covered(s, k);
    if t.Node? && t.data != d {
      H.RemoveKeepsOtherTop(t, d);
    }
    BeginUpdateCovers(v, k, None, Some(d));
    OtherStaysCovered(s, FetchMsg(s), k);
  }

  lemma FetchExpireWake(s: State)
    requires WakeInv(s) && s.pc == Idle && s.queue != [] && s.queue[0].Expire?
    ensures WakeInv(FetchMsg(s))
  {
    var k := s.queue[0].c;
    InTail(s.queue);
    BeginUpdateCovers(s.(queue := s.queue[1..]), k, None, None);
    OtherStaysCovered(s, FetchMsg(s), k);
  }

  lemma ScanWake(s: State)
    requires WakeInv(s) && s.pc.Scan?
    ensures WakeInv(MsgEffect(s))
  {
    BeginUpdateCovers(s, s.pc.c, None, None);
    OtherStaysCovered(s, MsgEffect(s), s.pc.c);
  }

  lemma PoppedWake(s: State)
    requires WakeInv(s) && s.pc.Popped?
    ensures WakeInv(MsgEffect(s))
  {
    if s.pc.d.id in s.objects && s.objects[s.pc.d.id].client.Some? {
      var c := s.objects[s.pc.d.id].client.value;
      if c in s.clients {
        StopIsQuiet(s, c, true);
      }
    }
    assert forall k: Kind :: MsgEffect(s).At(k) == s.At(k);
  }

  lemma MsgEffectWake(s: State)
    requires WakeInv(s) && s.pc != Idle
    ensures WakeInv(MsgEffect(s))
  {
    match s.pc
    case Popped(_, _, _) => PoppedWake(s);
    case Scan(_, _) => ScanWake(s);
    case Update(k, _, _, _) =>
      var u := MsgEffect(s);
      assert u.At(Other(k)) == s.At(Other(k)) && u.Heap(k) == s.Heap(k);
    case Deleting(_) =>
      assert forall k: Kind :: MsgEffect(s).At(k) == s.At(k);
    case Stopped(_, _, _) =>
      assert forall k: Kind :: MsgEffect(s).At(k) == s.At(k);
  }

  lemma PollEffectWake(s: State)
    requires WakeInv(s) && s.poll.pending != []
    ensures WakeInv(PollEffect(s))
  {
    var u, k := PollEffect(s), s.poll.pending[0];
    assert forall j: Kind :: u.Heap(j) == s.Heap(j);
    assert u.At(Other(k)) == s.At(Other(k));
    assert s.poll.pending == [k] + s.poll.pending[1..];
    assert ExpireComing(u, k);
    assert ExpireComing(s, Other(k)) ==> ExpireComing(u, Other(k));
  }

  lemma StepKeepsWake(s: State, l: Label)
    requires WakeInv(s) && Enabled(s, l)
    ensures WakeInv(Step(s, l))
  {
    match l
    case Fetch =>
      if s.queue[0].Push? {
        FetchPushWake(s);
      } else if s.queue[0].Remove? {
        FetchRemoveWake(s);
      } else {
        FetchExpireWake(s);
      }
    case MsgStep => MsgEffectWake(s);
    case PollStep => PollEffectWake(s);
    case Wake(evs) =>
      assert forall k: Kind :: Step(s, l).At(k) == s.At(k);
    case Stop(c) => StopIsQuiet(s, c, false); QuietKeepsWake(s, Step(s, l));
    case Destroy(c) => StopIsQuiet(s, c, false); QuietKeepsWake(s, Step(s, l));
    case _ => QuietKeepsWake(s, Step(s, l));
  }

  lemma {:induction false} RunKeepsWake(start: Timespec, ls: seq<Label>)
    ensures WakeInv(Run(start, ls))
  {
    if ls != [] {
      RunKeepsWake(start, ls[..|ls| - 1]);
      var s, l := Run(start, ls[..|ls| - 1]), ls[|ls| - 1];
      if Enabled(s, l) {
        StepKeepsWake(s, l);
      }
    }
  }

  // ----- what it means -----

  /** In every interleaving, a container that holds timers is polled and armed
      at exactly its top's time, or an Expire for it is coming, or the message
      thread is at work on it. */
  lemma NoLostWakeup(start: Timespec, ls: seq<Label>, k: Kind)
    requires Run(start, ls).Heap(k).Node?
    ensures var s := Run(start, ls); ArmedAtTop(s, k) || ExpireComing(s, k) || BusyWith(s.pc, k)
  {
    RunKeepsWake(start, ls);
  }

  ghost predicate AtRest(s: State) {
    s.pc == Idle && s.queue == [] && s.poll.pending == []
  }

  /** So once the threads are at rest, the moment the top's time has come
      epoll_wait reports its container. */
  lemma DueTopWakesThePoll(start: Timespec, ls: seq<Label>, k: Kind)
    requires var s := Run(start, ls); AtRest(s) && s.Heap(k).Node? && Earlier(s.Heap(k).data.due, s.clock)
    ensures Enabled(Run(start, ls), Wake([k]))
  {
    RunKeepsWake(start, ls);
  }

  /** The branch of `updateSoonestTime` that leaves epoll and disarms is never
      taken: the timer of a container that ran empty just stays set. */
  lemma DisarmBranchIsDead(start: Timespec, ls: seq<Label>)
    requires Run(start, ls).pc.Update?
    ensures Run(start, ls).pc.arm.Some?
  {
    RunKeepsWake(start, ls);
  }

  // ----- deadlines -----

  ghost predicate DueOk(s: State) {
    s.clock.Normalised() && forall i :: i in s.objects ==> s.objects[i].d.due.Normalised()
  }

  /** `start` arms for exactly `ms` milliseconds from now, normalised. */
  lemma FutureTimeIsExact(now: Timespec, ms: nat)
    requires now.Normalised()
    ensures FutureTime(now, ms).Normalised()
    ensures FutureTime(now, ms).Nanos() == now.Nanos() + ms * 1_000_000
  {
    assert ms == 1000 * (ms / 1000) + ms % 1000;
  }

  lemma StepKeepsDue(s: State, l: Label)
    requires DueOk(s) && Enabled(s, l)
    ensures DueOk(Step(s, l))
  {
    match l
    case Start(c, ms, wake) => FutureTimeIsExact(s.clock, ms);
    case MsgStep => MsgKeepsDue(s);
    case Stop(c) => StopKeepsDue(s, c, false);
    case Destroy(c) => StopKeepsDue(s, c, false);
    case _ =>
  }

  lemma MsgKeepsDue(s: State)
    requires DueOk(s) && s.pc != Idle
    ensures DueOk(MsgEffect(s))
  {
    if s.pc.Popped? && s.pc.d.id in s.objects && s.objects[s.pc.d.id].client.Some? {
      var c := s.objects[s.pc.d.id].client.value;
      if c in s.clients {
        StopKeepsDue(s, c, true);
      }
    }
  }

  lemma StopKeepsDue(s: State, c: nat, byExpire: bool)
    requires DueOk(s) && c in s.clients
    ensures DueOk(StopTimer(CountStop(s, c, byExpire), c))
  {
  }

  lemma {:induction false} RunKeepsDue(start: Timespec, ls: seq<Label>)
    requires start.Normalised()
    ensures DueOk(Run(start, ls))
  {
    if ls != [] {
      RunKeepsDue(start, ls[..|ls| - 1]);
      var s, l := Run(start, ls[..|ls| - 1]), ls[|ls| - 1];
      if Enabled(s, l) {
        StepKeepsDue(s, l);
      }
    }
  }

  /** The heap orders by whole seconds only, so its top need not be the earliest
      timer; but a container armed at its top is late by less than a second for
      any timer that it holds. */
  lemma ArmedWithinOneSecond(start: Timespec, ls: seq<Label>, k: Kind, d: Delegate)
    requires start.Normalised()
    requires var s := Run(start, ls); ArmedAtTop(s, k) && InHeap(s, k, d)
    ensures Run(start, ls).At(k).armed.value.Nanos() < d.due.Nanos() + 1_000_000_000
  {
    var s := Run(start, ls);
    RunKeepsLife(start, ls);
    RunKeepsDue(start, ls);
    assert HeapOk(s, k);
    H.TopIsMaximal(s.Heap(k), d);
    var top := s.Heap(k).data;
    assert InHeap(s, k, top);
  }
}
