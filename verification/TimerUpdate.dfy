/** When the message thread makes kernel calls, and for what: exactly when a
    container has a new top to be armed for. */
module TimerUpdates {
  import opened Wrappers
  import opened Rankables
  import opened TimerSystem
  import opened TimerLifetime
  import H = HeapTree

  /** The message thread is about to poll container `k` and arm it for `due`. */
  predicate AboutToArm(s: State, k: Kind, due: Timespec) {
    s.pc.Update? && s.pc.c == k && !s.pc.epollDone && s.pc.arm == Some(due)
  }

  lemma PushedTop(t: H.Tree, d: Delegate)
    ensures var top := H.Peek(H.Push(t, d));
      top == Some(if t.Leaf? || OutRanks(d, t.data) then d else t.data)
  {
  }

  /** Over every run: a Push leads to kernel calls exactly if the container was empty
      or the new timer's second is before the top's, and they are for the new timer;
      otherwise the message is done with. */
  lemma {:induction false} PushArmsExactly(start: Timespec, ls: seq<Label>, k: Kind, d: Delegate)
    requires var s := Run(start, ls); Enabled(s, Fetch) && s.queue[0] == Push(k, d)
    ensures var s, u := Run(start, ls), FetchMsg(Run(start, ls));
      if s.Heap(k).Leaf? || d.due.sec < s.Heap(k).data.due.sec
      then AboutToArm(u, k, d.due) && u.pc.victim == None
      else u.pc == Idle
  {
    var s := Run(start, ls);
    RunKeepsLife(start, ls);
    assert s.queue[0] in s.queue && MsgOk(s, Push(k, d));
    PushedTop(s.Heap(k), d);
    if s.Heap(k).Node? {
      NotYetTop(s, k, d);
    }
  }

  /** A timer that is still to be pushed is not the top. */
  lemma NotYetTop(s: State, k: Kind, d: Delegate)
    requires HeapOk(s, k) && Push(k, d) in s.queue && s.Heap(k).Node?
    ensures s.Heap(k).data != d
  {
    assert InHeap(s, k, s.Heap(k).data);
  }

  /** Over every run: a Remove leads to kernel calls exactly if it takes away the top
      and leaves something, and they are for the new top; in any case the delegate
      is deleted afterwards. */
  lemma {:induction false} RemoveArmsExactly(start: Timespec, ls: seq<Label>, k: Kind, d: Delegate)
    requires var s := Run(start, ls); Enabled(s, Fetch) && s.queue[0] == Remove(k, d)
    ensures var s, u := Run(start, ls), FetchMsg(Run(start, ls));
      if s.Heap(k).Node? && s.Heap(k).data == d && u.Heap(k).Node?
      then AboutToArm(u, k, u.Heap(k).data.due) && u.pc.victim == Some(d)
      else u.pc == Deleting(d)
  {
    RunKeepsLife(start, ls);
    assert HeapOk(Run(start, ls), k);
    RemovedTop(Run(start, ls).Heap(k), d);
    RemoveDecides(Run(start, ls), k, d);
  }

  /** The search finds the top at once, and an empty heap has nothing to find. */
  lemma RemovedTop(t: H.Tree, d: Delegate)
    requires H.IsHeap(t)
    ensures t.Leaf? ==> H.Remove(t, d).None?
    ensures t.Node? && t.data == d ==> H.Remove(t, d).Some?
  {
  }

  lemma RemoveDecides(s: State, k: Kind, d: Delegate)
    requires Enabled(s, Fetch) && s.queue[0] == Remove(k, d)
    requires s.Heap(k).Leaf? ==> H.Remove(s.Heap(k), d).None?
    requires s.Heap(k).Node? && s.Heap(k).data == d ==> H.Remove(s.Heap(k), d).Some?
    ensures var u := FetchMsg(s);
      if s.Heap(k).Node? && s.Heap(k).data == d && u.Heap(k).Node?
      then AboutToArm(u, k, u.Heap(k).data.due) && u.pc.victim == Some(d)
      else u.pc == Deleting(d)
  {
  }

  /** Over every run: when the message thread is done with the pops of an Expire it
      makes kernel calls exactly if something is left, for its top. */
  lemma ScanArmsExactly(start: Timespec, ls: seq<Label>, k: Kind)
    requires var s := Run(start, ls); s.pc.Scan? && s.pc.c == k && !TakesTop(s.Heap(k), s.pc.now)
    ensures var s, u := Run(start, ls), MsgEffect(Run(start, ls));
      && u.Heap(k) == s.Heap(k)
      && if s.Heap(k).Node? then AboutToArm(u, k, s.Heap(k).data.due) && u.pc.victim == None else u.pc == Idle
  {
  }

  /** And an Expire that finds nothing is done with at once. */
  lemma EmptyExpireDoesNothing(start: Timespec, ls: seq<Label>, k: Kind)
    requires var s := Run(start, ls); Enabled(s, Fetch) && s.queue[0] == Expire(k) && s.Heap(k).Leaf?
    ensures var s := Run(start, ls); FetchMsg(s) == s.(queue := s.queue[1..])
  {
  }

  /** The two kernel calls: the container is polled, then armed, and nothing else
      changes. */
  lemma KernelCallsArm(s: State, k: Kind, due: Timespec)
    requires AboutToArm(s, k, due)
    ensures var v := MsgEffect(s);
      && v.pc == s.pc.(epollDone := true) && v.At(k) == s.At(k).(polled := true)
      && var u := MsgEffect(v);
         && u.At(k) == Container(s.Heap(k), Some(due), true)
         && (forall j: Kind :: j != k ==> u.At(j) == s.At(j))
         && u.pc == (if s.pc.victim.Some? then Deleting(s.pc.victim.value) else Idle)
         && u.queue == s.queue && u.objects == s.objects && u.clients == s.clients && u.poll == s.poll
  {
  }
}
