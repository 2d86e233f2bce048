/** A timer client, its delegate and the lock they share, as objects.  Each
    method is tied to the step of the protocol that it carries out. */
module LocTimers {
  import opened Wrappers
  import opened Rankables
  import opened TimerSystem

  class LocSharedLock {
    var mRef: int
    var frees: nat  // how often the lock has deleted itself

    constructor ()
      ensures mRef == 1 && frees == 0
    {
      mRef, frees := 1, 0;
    }

    method Share()
      modifies this
      ensures mRef == old(mRef) + 1 && frees == old(frees)
    {
      mRef := mRef + 1;
    }

    method Drop()
      modifies this
      ensures mRef == old(mRef) - 1
      ensures frees == if old(mRef) == 1 then old(frees) + 1 else old(frees)
    {
      var before := mRef;
      mRef := mRef - 1;
      if before == 1 {
        frees := frees + 1;
      }
    }
  }

  /** The sending side of the timer service's message queue. */
  class MsgTask {
    var queue: seq<Msg>

    constructor ()
      ensures queue == []
    {
      queue := [];
    }

    method SendMsg(m: Msg)
      modifies this
      ensures queue == old(queue) + [m]
    {
      queue := queue + [m];
    }
  }

  class LocTimerDelegate {
    const d: Delegate
    const home: Kind
    const mLock: LocSharedLock
    const task: MsgTask
    var mClient: LocTimer?
    var mContainer: Option<Kind>

    constructor (client: LocTimer, d: Delegate, home: Kind)
      requires client.mLock as object != client.task as object
      modifies client.mLock, client.task
      ensures this.d == d && this.home == home && mLock == client.mLock && task == client.task
      ensures mClient == client && mContainer == Some(home)
      ensures client.mLock.mRef == old(client.mLock.mRef) + 1 && client.mLock.frees == old(client.mLock.frees)
      ensures client.task.queue == old(client.task.queue) + [Push(home, d)]
    {
      this.d, this.home, mLock, task := d, home, client.mLock, client.task;
      mClient, mContainer := client, Some(home);
      new;
      mLock.Share();
      task.SendMsg(Push(home, d));
    }

    method DestroyLocked()
      modifies this, task
      ensures mClient == null && mContainer == None
      ensures task.queue == old(task.queue) + if old(mContainer).Some? then [Remove(old(mContainer).value, d)] else []
    {
      mClient := null;
      if mContainer.Some? {
        var container := mContainer.value;
        mContainer := None;
        task.SendMsg(Remove(container, d));
      }
    }
  }

  class LocTimer {
    const c: nat
    const mLock: LocSharedLock
    const task: MsgTask
    var mTimer: LocTimerDelegate?
    var alive: bool
    var callbacks: nat

    /** The delegate is this client's, and not stopped. */
    ghost predicate Valid()
      reads this, mTimer
    {
      mTimer != null ==>
        && mTimer.mClient == this && mTimer.mLock == mLock && mTimer.task == task
        && mTimer.mContainer == Some(mTimer.home)
    }

    /** The protocol state `s` shows this client and its delegate as they are. */
    ghost predicate ShownBy(s: State)
      reads this, mTimer, mLock, task
    {
      && c in s.clients && s.queue == task.queue && Shows(s.clients[c])
      && (mTimer != null ==>
            && mTimer.d.id in s.objects
            && s.objects[mTimer.d.id] == Object(mTimer.d, Some(c), mTimer.mContainer, mTimer.home, c))
    }

    ghost predicate Shows(cl: Client)
      reads this, mTimer, mLock
    {
      && cl.alive == alive && cl.callbacks == callbacks
      && cl.lockRef == mLock.mRef && cl.frees == mLock.frees
      && cl.timer == if mTimer == null then None else Some(mTimer.d.id)
    }

    constructor (c: nat, task: MsgTask)
      ensures Valid() && this.c == c && this.task == task && fresh(mLock)
      ensures Shows(Client(true, None, 1, 0, 0, 0, 0, 0))
    {
      this.c, this.task := c, task;
      mLock := new LocSharedLock();
      mTimer, alive, callbacks := null, true, 0;
    }

    /** `now` is the clock, `id` the address of a new delegate. */
    method Start(timeOutInMs: nat, wakeOnExpire: bool, now: Timespec, id: nat, ghost s: State) returns (success: bool)
      requires Valid() && ShownBy(s) && s.clock == now && s.nextId == id
      modifies this, mLock, task
      ensures Valid() && ShownBy(StartTimer(s, c, timeOutInMs, wakeOnExpire))
      ensures success <==> old(mTimer) == null
    {
      success := false;
      if mTimer == null {
        var sec, nsec := now.sec + timeOutInMs / 1000, now.nsec + (timeOutInMs % 1000) * 1_000_000;
        if nsec >= 1_000_000_000 {
          sec := sec + nsec / 1_000_000_000;
          nsec := nsec % 1_000_000_000;
        }
        var home := if wakeOnExpire then Hw else Sw;
        mTimer := new LocTimerDelegate(this, Delegate(id, Timespec(sec, nsec)), home);
        success := true;
      }
    }

    method Stop(ghost s: State) returns (success: bool)
      requires Valid() && ShownBy(s)
      modifies this, task, mTimer
      ensures Valid() && ShownBy(StopTimer(s, c)) && mTimer == null
      ensures alive == old(alive) && callbacks == old(callbacks)
      ensures success <==> old(mTimer) != null
    {
      success := false;
      if mTimer != null {
        var timer := mTimer;
        mTimer := null;
        timer.DestroyLocked();
        success := true;
      }
    }

    /** The destructor. */
    method Destroy(ghost s: State)
      requires Valid() && ShownBy(s)
      modifies this, mLock, task, mTimer
      ensures Valid() && ShownBy(DestroyTimer(s, c)) && !alive
    {
      var _ := Stop(CountStop(s, c, false));
      alive := false;
      mLock.Drop();
    }

    /** A popped delegate expires: its client is stopped, then called back.  A
        delegate that its client has let go of does nothing. */
    static method Expire(timer: LocTimerDelegate, k: Kind, now: Timespec, ghost s: State)
      requires timer.mClient != null ==> timer.mClient.Valid() && timer.mClient.ShownBy(s) && timer.mClient.mTimer == timer
      requires timer.mClient == null ==> timer.d.id in s.objects ==> s.objects[timer.d.id].client == None
      requires s.pc == Popped(k, now, timer.d)
      modifies timer, timer.mClient, timer.task
      ensures old(timer.mClient) != null ==>
        && var client, s1 := old(timer.mClient), MsgEffect(s);
           && s1.pc == Stopped(k, now, client.c)
           && client.Valid() && client.ShownBy(MsgEffect(s1))
           && client.callbacks == old(timer.mClient.callbacks) + 1
      ensures old(timer.mClient) == null ==> MsgEffect(s) == s.(pc := Scan(k, now)) && unchanged(timer)
    {
      var client := timer.mClient;
      if client != null {
        ghost var s1 := CountStop(s, client.c, true);
        var stopped := client.Stop(s1);
        if stopped {
          client.callbacks := client.callbacks + 1;
        }
      }
    }
  }
}
