/** The container as an object: its heap, and the kernel state it drives. */
module LocTimerContainers {
  import opened Wrappers
  import opened Rankables
  import opened TimerSystem
  import opened ExpireLoop
  import opened LocHeapClasses
  import H = HeapTree

  /** What `updateSoonestTime(priorTop)` decides to arm the container for, if it
      decides anything. */
  function ArmFor(c: Container, priorTop: Option<Delegate>): Option<Option<Timespec>> {
    var curTop := H.Peek(c.heap);
    if curTop == priorTop then None
    else if curTop.None? then Some(None)
    else if priorTop.None? || OutRanks(curTop.value, priorTop.value) then Some(Some(curTop.value.due))
    else None
  }

  /** A container after all of it. */
  function Updated(c: Container, priorTop: Option<Delegate>): Container {
    match ArmFor(c, priorTop)
    case None => c
    case Some(arm) => c.(polled := arm.Some?, armed := arm)
  }

  lemma BeginsAsDecided(s: State, k: Kind, priorTop: Option<Delegate>, victim: Option<Delegate>)
    ensures BeginUpdate(s, k, priorTop, victim) ==
      match ArmFor(s.At(k), priorTop)
      case None => Finish(s, victim)
      case Some(arm) => s.(pc := Update(k, arm, false, victim))
  {
  }

  /** The message thread, left to itself, gets there in the steps that the
      protocol takes apart. */
  lemma UpdateRunsToUpdated(s: State, k: Kind, priorTop: Option<Delegate>, victim: Option<Delegate>)
    ensures var u := BeginUpdate(s, k, priorTop, victim);
      var v := if u.pc.Update? then MsgEffect(MsgEffect(u)) else u;
      v == Finish(s.With(k, Updated(s.At(k), priorTop)), victim)
  {
    BeginsAsDecided(s, k, priorTop, victim);
    match ArmFor(s.At(k), priorTop)
    case None =>
    case Some(arm) => TwoCalls(s.(pc := Update(k, arm, false, victim)), k, arm, victim);
  }

  /** The two kernel calls of an update. */
  lemma TwoCalls(u: State, k: Kind, arm: Option<Timespec>, victim: Option<Delegate>)
    requires u.pc == Update(k, arm, false, victim)
    ensures MsgEffect(MsgEffect(u)) == Finish(u.With(k, u.At(k).(polled := arm.Some?, armed := arm)), victim)
  {
    var v := u.With(k, u.At(k).(polled := arm.Some?)).(pc := Update(k, arm, true, victim));
    assert MsgEffect(u) == v;
    assert MsgEffect(v) == Finish(v.With(k, v.At(k).(armed := arm)), victim);
  }

  /** What the expire loop has yet to expire once it holds `timer`. */
  ghost function StillExpiring(timer: Option<Delegate>, t: H.Tree, now: Timespec): seq<Delegate> {
    if timer.None? then [] else [timer.value] + Drained(t, now)
  }

  ghost function StillKept(timer: Option<Delegate>, t: H.Tree, now: Timespec): H.Tree {
    if timer.None? then t else Kept(t, now)
  }

  /** Expiring `d` and taking the next top, if it is due, leaves as much to do. */
  lemma ExpireStep(expired: seq<Delegate>, d: Delegate, t: H.Tree, now: Timespec)
    ensures var next, t' := if TakesTop(t, now) then Some(t.data) else None, if TakesTop(t, now) then H.Pop(t) else t;
      && expired + StillExpiring(Some(d), t, now) == (expired + [d]) + StillExpiring(next, t', now)
      && StillKept(Some(d), t, now) == StillKept(next, t', now)
      && (TakesTop(t, now) ==> H.Count(t') < H.Count(t))
  {
    DrainStep(t, now);
    assert expired + ([d] + Drained(t, now)) == (expired + [d]) + Drained(t, now);
  }

  class LocTimerContainer {
    const heap: LocHeap
    var armed: Option<Timespec>
    var polled: bool

    ghost predicate Valid()
      reads this, heap, heap.mTree, heap.Repr()
    {
      heap.Valid()
    }

    ghost function Value(): Container
      reads this, heap, heap.mTree
    {
      Container(heap.Contents(), armed, polled)
    }

    constructor ()
      ensures Valid() && Value() == Container(H.Leaf, None, false) && fresh(heap.Repr())
    {
      heap := new LocHeap();
      armed, polled := None, false;
    }

    method UpdateSoonestTime(priorTop: Option<Delegate>)
      requires Valid()
      modifies this
      ensures Valid() && Value() == Updated(old(Value()), priorTop)
    {
      var curTop := heap.Peek();
      if curTop != priorTop {
        var delay := None;
        var toSetTime := false;
        if curTop == None {
          polled := false;
          toSetTime := true;
        } else if priorTop == None || OutRanks(curTop.value, priorTop.value) {
          polled := true;
          delay := Some(curTop.value.due);
          toSetTime := true;
        }
        if toSetTime {
          armed := delay;
        }
      }
    }

    /** The Push message. */
    method ProcPush(d: Delegate)
      requires Valid()
      modifies this, heap.Repr()
      ensures Valid() && fresh(heap.Repr() - old(heap.Repr()))
      ensures var c := old(Value());
        Value() == Updated(c.(heap := H.Push(c.heap, d)), H.Peek(c.heap))
    {
      var priorTop := heap.Peek();
      heap.Push(d);
      UpdateSoonestTime(priorTop);
    }

    /** The Remove message, up to the deletion of `d`. */
    method ProcRemove(d: Delegate)
      requires Valid()
      modifies this, heap.Repr()
      ensures Valid() && heap.Repr() <= old(heap.Repr())
      ensures var c := old(Value());
        var removed := if H.Remove(c.heap, d).Some? then Some(d) else None;
        var c' := c.(heap := H.AfterRemove(c.heap, d));
        Value() == if H.Peek(c.heap) == removed then Updated(c', None) else c'
    {
      var priorTop := heap.Peek();
      var removed := heap.Remove(d);
      if priorTop == removed {
        UpdateSoonestTime(None);
      }
    }

    method PopIfOutRanks(now: Timespec) returns (d: Option<Delegate>)
      requires Valid()
      modifies heap.Repr()
      ensures Valid() && heap.Repr() <= old(heap.Repr())
      ensures var t := old(heap.Contents());
        if TakesTop(t, now) then d == Some(t.data) && heap.Contents() == H.Pop(t)
        else d == None && heap.Contents() == t
    {
      d := None;
      var top := heap.Peek();
      if top.Some? && !OutRanks(Delegate(0, now), top.value) {
        d := heap.Pop();
      }
    }

    /** The Expire message.  `expired` are the delegates whose `expire` is
        called, in that order. */
    method ProcExpire(now: Timespec) returns (expired: seq<Delegate>)
      requires Valid()
      modifies this, heap.Repr()
      ensures Valid() && heap.Repr() <= old(heap.Repr())
      ensures expired == ExpiredBy(old(heap.Contents()), now)
      ensures var c := old(Value()); Value() == Updated(c.(heap := KeptBy(c.heap, now)), None)
    {
      expired := [];
      ghost var expiring, keeping := ExpiredBy(heap.Contents(), now), KeptBy(heap.Contents(), now);
      var timer := heap.Pop();
      while timer.Some?
        invariant Valid() && heap.Repr() <= old(heap.Repr())
        invariant armed == old(armed) && polled == old(polled)
        invariant keeping == StillKept(timer, heap.Contents(), now)
        invariant expiring == expired + StillExpiring(timer, heap.Contents(), now)
        decreases H.Count(heap.Contents()), timer.Some?
      {
        ExpireStep(expired, timer.value, heap.Contents(), now);
        expired := expired + [timer.value];
        timer := PopIfOutRanks(now);
      }
      UpdateSoonestTime(None);
    }

    /** The poll thread's `expire`: disarm, leave epoll, send the message. */
    method Expire(k: Kind) returns (m: Msg)
      modifies this
      ensures m == Msg.Expire(k)
      ensures Value() == old(Value()).(armed := None, polled := false)
    {
      armed := None;
      polled := false;
      m := Msg.Expire(k);
    }
  }
}
