/** What threads see of a message queue: each action below happens while its
    thread holds the queue's mutex, in any interleaving. */
module MsgQueueProtocol {
  import opened Wrappers

  /** `queue` is oldest first.  `waiters` counts threads inside receive.
      `accepted`, `received` and `dropped` are histories. */
  datatype QState<T> = QState(
    queue: seq<T>,
    unblocked: bool,
    waiters: nat,
    accepted: seq<T>,
    received: seq<T>,
    dropped: seq<T>)

  /** A receive is a call and, later, a wake-up; a wake-up that finds nothing to
      do goes back to waiting. */
  datatype QLabel<T> = Snd(msg: Option<T>) | RcvCall | RcvWake | Flush | Unblock

  function QInit<T>(): QState<T> {
    QState([], false, 0, [], [], [])
  }

  function QNext<T>(s: QState<T>, l: QLabel<T>): QState<T> {
    match l
    case Snd(m) =>
      if m.None? || s.unblocked then s
      else s.(queue := s.queue + [m.value], accepted := s.accepted + [m.value])
    case RcvCall =>
      if s.unblocked then s else s.(waiters := s.waiters + 1)
    case RcvWake =>
      if s.waiters == 0 || (s.queue == [] && !s.unblocked) then s
      else if s.queue == [] then s.(waiters := s.waiters - 1)
      else s.(queue := s.queue[1..], received := s.received + [s.queue[0]], waiters := s.waiters - 1)
    case Flush =>
      s.(queue := [], dropped := s.dropped + s.queue)
    case Unblock =>
      s.(unblocked := true)
  }

  function QRun<T>(s: QState<T>, ls: seq<QLabel<T>>): QState<T> {
    if ls == [] then s else QNext(QRun(s, ls[..|ls| - 1]), ls[|ls| - 1])
  }

  /** Without a flush, what came out followed by what is still queued is exactly
      what was accepted, in the order of acceptance, in every interleaving. */
  lemma {:induction false} DeliveryIsFifo<T>(ls: seq<QLabel<T>>)
    requires forall i :: 0 <= i < |ls| ==> !ls[i].Flush?
    ensures var s := QRun(QInit(), ls); s.received + s.queue == s.accepted
  {
    if ls != [] {
      DeliveryIsFifo(ls[..|ls| - 1]);
      var s, l := QRun(QInit(), ls[..|ls| - 1]), ls[|ls| - 1];
      if l.Snd? && l.msg.Some? {
        assert s.received + (s.queue + [l.msg.value]) == (s.received + s.queue) + [l.msg.value];
      } else if l.RcvWake? && s.queue != [] {
        assert (s.received + [s.queue[0]]) + s.queue[1..] == s.received + s.queue;
      }
    }
  }

  ghost predicate Accounted<T>(s: QState<T>) {
    multiset(s.accepted) == multiset(s.received) + multiset(s.queue) + multiset(s.dropped)
  }

  lemma StepAccounts<T>(s: QState<T>, l: QLabel<T>)
    requires Accounted(s)
    ensures Accounted(QNext(s, l))
  {
    if l.RcvWake? && s.queue != [] {
      assert s.queue == [s.queue[0]] + s.queue[1..];
    }
  }

  /** With flushes, every accepted message is still accounted for exactly once:
      received, queued or dropped by a flush. */
  lemma {:induction false} NothingIsLostOrDuplicated<T>(ls: seq<QLabel<T>>)
    ensures Accounted(QRun(QInit(), ls))
  {
    if ls != [] {
      NothingIsLostOrDuplicated(ls[..|ls| - 1]);
      StepAccounts(QRun(QInit(), ls[..|ls| - 1]), ls[|ls| - 1]);
    }
  }

  /** Once unblocked, a queue accepts nothing more, and delivers at most one
      message to each thread that was already inside receive. */
  lemma {:induction false} UnblockShutsTheQueue<T>(s: QState<T>, ls: seq<QLabel<T>>)
    requires s.unblocked
    ensures var u := QRun(s, ls);
      && u.unblocked && u.accepted == s.accepted
      && |s.received| <= |u.received|
      && |u.received| + u.waiters <= |s.received| + s.waiters
  {
    if ls != [] {
      UnblockShutsTheQueue(s, ls[..|ls| - 1]);
    }
  }

  // ----- by the labels alone -----

  predicate Shut<T>(ls: seq<QLabel<T>>) {
    exists i :: 0 <= i < |ls| && ls[i].Unblock?
  }

  /** What was sent before the queue was unblocked, in order. */
  function Sent<T>(ls: seq<QLabel<T>>): seq<T> {
    if ls == [] then []
    else
      var before, l := ls[..|ls| - 1], ls[|ls| - 1];
      Sent(before) + if l.Snd? && l.msg.Some? && !Shut(before) then [l.msg.value] else []
  }

  /** How many threads have come to receive before the queue was unblocked. */
  function Called<T>(ls: seq<QLabel<T>>): nat {
    if ls == [] then 0
    else
      var before, l := ls[..|ls| - 1], ls[|ls| - 1];
      Called(before) + if l.RcvCall? && !Shut(before) then 1 else 0
  }

  lemma ShutSnoc<T>(ls: seq<QLabel<T>>)
    requires ls != []
    ensures Shut(ls) <==> Shut(ls[..|ls| - 1]) || ls[|ls| - 1].Unblock?
  {
    var before := ls[..|ls| - 1];
    if Shut(before) {
      var i :| 0 <= i < |before| && before[i].Unblock?;
      assert ls[i].Unblock?;
    }
  }

  /** Every message that is sent before an unblock is accepted, and no other. */
  lemma {:induction false} AcceptedIsSent<T>(ls: seq<QLabel<T>>)
    ensures var s := QRun(QInit(), ls); s.accepted == Sent(ls) && (s.unblocked <==> Shut(ls))
  {
    if ls != [] {
      AcceptedIsSent(ls[..|ls| - 1]);
      ShutSnoc(ls);
    }
  }

  /** How many messages have left the queue. */
  function Gone<T>(s: QState<T>): nat {
    |s.received| + |s.dropped|
  }

  ghost predicate NewestLeft<T>(s: QState<T>) {
    Gone(s) <= |s.accepted| && s.queue == s.accepted[Gone(s)..]
  }

  lemma StepLeavesNewest<T>(s: QState<T>, l: QLabel<T>)
    requires NewestLeft(s)
    ensures NewestLeft(QNext(s, l))
  {
    match l
    case Snd(m) =>
      if m.Some? && !s.unblocked {
        assert (s.accepted + [m.value])[Gone(s)..] == s.accepted[Gone(s)..] + [m.value];
      }
    case Flush => assert s.accepted[Gone(s) + |s.queue|..] == [];
    case _ =>
  }

  lemma {:induction false} NewestAreLeft<T>(ls: seq<QLabel<T>>)
    ensures NewestLeft(QRun(QInit(), ls))
  {
    if ls != [] {
      NewestAreLeft(ls[..|ls| - 1]);
      StepLeavesNewest(QRun(QInit(), ls[..|ls| - 1]), ls[|ls| - 1]);
    }
  }

  /** Flushes or not: the queue is what was sent, without as many of the oldest as
      have left it. */
  lemma QueueIsWhatIsLeft<T>(ls: seq<QLabel<T>>)
    ensures var s := QRun(QInit(), ls); Gone(s) <= |Sent(ls)| && s.queue == Sent(ls)[Gone(s)..]
  {
    NewestAreLeft(ls);
    AcceptedIsSent(ls);
  }

  /** Until the queue is unblocked, whoever came to receive has got a message or is
      still waiting; afterwards some have left without one. */
  lemma {:induction false} CallsBalance<T>(ls: seq<QLabel<T>>)
    ensures var s := QRun(QInit(), ls);
      && s.waiters + |s.received| <= Called(ls)
      && (!Shut(ls) ==> s.waiters + |s.received| == Called(ls))
  {
    if ls != [] {
      CallsBalance(ls[..|ls| - 1]);
      AcceptedIsSent(ls[..|ls| - 1]);
      ShutSnoc(ls);
    }
  }

  /** After every run: who waits and wakes up gets the oldest message that is left;
      without one it leaves empty-handed if the queue was unblocked, and otherwise
      goes on waiting. */
  lemma WakeDelivers<T>(ls: seq<QLabel<T>>)
    requires QRun(QInit(), ls).waiters > 0
    ensures var s, u := QRun(QInit(), ls), QRun(QInit(), ls + [RcvWake]);
      if Gone(s) < |Sent(ls)| then
        && u.received == s.received + [Sent(ls)[Gone(s)]] && u.waiters == s.waiters - 1
        && u.dropped == s.dropped
      else if Shut(ls) then u == s.(waiters := s.waiters - 1)
      else u == s
  {
    assert (ls + [RcvWake])[..|ls|] == ls;
    QueueIsWhatIsLeft(ls);
    AcceptedIsSent(ls);
  }

  /** A flush drops what is left and nothing else: from then on, up to the next
      one, what is received followed by what is queued is what is sent. */
  lemma FlushStartsAfresh<T>(before: seq<QLabel<T>>, after: seq<QLabel<T>>)
    requires forall i :: 0 <= i < |after| ==> !after[i].Flush?
    ensures var ls := before + [QLabel.Flush] + after;
      var s, u := QRun(QInit(), before), QRun(QInit(), ls);
      && |Sent(before)| <= |Sent(ls)| && u.dropped == s.dropped + s.queue && s.received <= u.received
      && u.received[|s.received|..] + u.queue == Sent(ls)[|Sent(before)|..]
  {
    var ls := before + [QLabel.Flush] + after;
    RunGoesOn(before, after);
    AcceptedIsSent(ls);
    AcceptedIsSent(before);
  }

  lemma {:induction false} RunGoesOn<T>(before: seq<QLabel<T>>, after: seq<QLabel<T>>)
    requires forall i :: 0 <= i < |after| ==> !after[i].Flush?
    ensures var s, u := QRun(QInit(), before), QRun(QInit(), before + [QLabel.Flush] + after);
      GoesOn(s, u) && u.dropped == s.dropped + s.queue
    decreases |after|
  {
    var ls, s := before + [QLabel.Flush] + after, QRun(QInit(), before);
    if after == [] {
      assert ls[..|ls| - 1] == before;
    } else {
      var n := |after| - 1;
      RunGoesOn(before, after[..n]);
      assert ls[..|ls| - 1] == before + [QLabel.Flush] + after[..n] && ls[|ls| - 1] == after[n];
      StepGoesOn(s, QRun(QInit(), ls[..|ls| - 1]), after[n]);
    }
  }

  /** What is received and queued, beyond what `s` had received, is what was
      accepted beyond what `s` had accepted. */
  ghost predicate GoesOn<T>(s: QState<T>, u: QState<T>) {
    && |s.accepted| <= |u.accepted| && s.received <= u.received
    && u.received[|s.received|..] + u.queue == u.accepted[|s.accepted|..]
  }

  lemma SendGoesOn<T>(s: QState<T>, u: QState<T>, m: T)
    requires GoesOn(s, u)
    ensures GoesOn(s, u.(queue := u.queue + [m], accepted := u.accepted + [m]))
  {
    var r := u.received[|s.received|..];
    assert r + (u.queue + [m]) == (r + u.queue) + [m];
    assert (u.accepted + [m])[|s.accepted|..] == u.accepted[|s.accepted|..] + [m];
  }

  lemma WakeGoesOn<T>(s: QState<T>, u: QState<T>, waiters: nat)
    requires GoesOn(s, u) && u.queue != []
    ensures GoesOn(s, u.(queue := u.queue[1..], received := u.received + [u.queue[0]], waiters := waiters))
  {
    var r := u.received[|s.received|..];
    assert (u.received + [u.queue[0]])[|s.received|..] == r + [u.queue[0]];
    assert (r + [u.queue[0]]) + u.queue[1..] == r + u.queue;
  }

  lemma StepGoesOn<T>(s: QState<T>, u: QState<T>, l: QLabel<T>)
    requires GoesOn(s, u) && !l.Flush?
    ensures GoesOn(s, QNext(u, l)) && QNext(u, l).dropped == u.dropped
  {
    if l.Snd? && l.msg.Some? {
      SendGoesOn(s, u, l.msg.value);
    } else if l.RcvWake? && u.waiters > 0 && u.queue != [] {
      WakeGoesOn(s, u, u.waiters - 1);
    }
  }
}

/** The queue itself: the linked list, with sends at its head and receives at
    its tail. */
module MsgQueues {
  import opened Wrappers
  import opened LinkedLists
  import opened MsgQueueProtocol

  datatype MsgQErr =
    | MsgQSuccess
    | MsgQFailureGeneral
    | MsgQInvalidParameter
    | MsgQInvalidHandle
    | MsgQUnavailableResource
    | MsgQInsufficientBuffer

  function Convert(e: ListErr): MsgQErr {
    match e
    case Success => MsgQSuccess
    case InvalidParameter => MsgQInvalidParameter
    case InvalidHandle => MsgQInvalidHandle
    case UnavailableResource => MsgQUnavailableResource
    case InsufficientBuffer => MsgQInsufficientBuffer
    case FailureGeneral => MsgQFailureGeneral
  }

  function OldestFirst<T>(s: seq<Item<T>>): (r: seq<T>)
    ensures |r| == |s|
  {
    if s == [] then [] else OldestFirst(s[1..]) + [s[0].data]
  }

  /** The last list element is the oldest message. */
  lemma {:induction false} OldestIsLast<T>(s: seq<Item<T>>)
    requires s != []
    ensures OldestFirst(s) == [s[|s| - 1].data] + OldestFirst(s[..|s| - 1])
  {
    if |s| > 1 {
      OldestIsLast(s[1..]);
      assert s[1..][..|s| - 2] == s[..|s| - 1][1..];
    } else {
      assert OldestFirst(s[1..]) == [] && s[..|s| - 1] == [];
    }
  }

  class MsgQueue<T> {
    const msgList: LinkedList<T>
    var unblocked: bool
    ghost var waiters: nat
    ghost var accepted: seq<T>
    ghost var received: seq<T>
    ghost var dropped: seq<T>

    ghost predicate Valid()
      reads this, msgList, msgList.nodes
    {
      msgList.Valid()
    }

    ghost function State(): QState<T>
      reads this, msgList
    {
      QState(OldestFirst(msgList.Contents()), unblocked, waiters, accepted, received, dropped)
    }

    constructor ()
      ensures Valid() && State() == QInit() && fresh(msgList)
    {
      msgList := new LinkedList<T>();
      unblocked, waiters, accepted, received, dropped := false, 0, [], [], [];
    }

    method Send(msg: Option<T>, owned: bool) returns (rv: MsgQErr)
      requires Valid()
      modifies this, msgList, msgList.nodes
      ensures Valid() && State() == QNext(old(State()), Snd(msg))
      ensures rv == if msg.None? then MsgQInvalidParameter
                    else if old(unblocked) then MsgQUnavailableResource else MsgQSuccess
      ensures msgList.freed == old(msgList.freed)
      ensures msgList.Contents() ==
        (if rv == MsgQSuccess then [Item(msg.value, owned)] else []) + old(msgList.Contents())
    {
      if msg == None {
        return MsgQInvalidParameter;
      }
      if unblocked {
        return MsgQUnavailableResource;
      }
      ghost var was := msgList.Contents();
      var err := msgList.Add(msg, owned);
      assert msgList.Contents()[1..] == was;
      accepted := accepted + [msg.value];
      rv := Convert(err);
    }

    /** The first half of a receive.  `waiting` says whether the second half follows. */
    method ReceiveCall() returns (rv: MsgQErr, waiting: bool)
      requires Valid()
      modifies this
      ensures Valid() && State() == QNext(old(State()), RcvCall)
      ensures waiting == !old(unblocked)
      ensures !waiting ==> rv == MsgQUnavailableResource
    {
      if unblocked {
        return MsgQUnavailableResource, false;
      }
      waiters := waiters + 1;
      return MsgQSuccess, true;
    }

    /** A waiting receiver gets the mutex back: it leaves unless there is still
        nothing to do. */
    method ReceiveWake(slot: Option<T>) returns (done: bool, rv: MsgQErr, slot': Option<T>)
      requires Valid() && waiters > 0
      modifies this, msgList, msgList.nodes
      ensures Valid() && State() == QNext(old(State()), RcvWake)
      ensures msgList.freed == old(msgList.freed)
      ensures done <==> old(State()).queue != [] || old(unblocked)
      ensures done ==>
        if old(State()).queue != [] then rv == MsgQSuccess && slot' == Some(old(State()).queue[0])
        else rv == MsgQUnavailableResource && slot' == slot
    {
      rv, slot' := MsgQSuccess, slot;
      var empty := msgList.Empty();
      done := !empty || unblocked;
      if done {
        ghost var was := msgList.Contents();
        var err;
        err, slot' := msgList.Remove(slot);
        rv := Convert(err);
        waiters := waiters - 1;
        if was != [] {
          OldestIsLast(was);
          received := received + [was[|was| - 1].data];
        }
      }
    }

    method Flush() returns (rv: MsgQErr)
      requires Valid()
      modifies this, msgList
      ensures Valid() && State() == QNext(old(State()), QLabel.Flush) && rv == MsgQSuccess
      // what came with a dealloc function is freed
      ensures msgList.freed == old(msgList.freed) + Owned(old(msgList.Contents()))
    {
      dropped := dropped + State().queue;
      var err := msgList.Flush();
      rv := Convert(err);
    }

    method Unblock() returns (rv: MsgQErr)
      requires Valid()
      modifies this
      ensures Valid() && State() == QNext(old(State()), QLabel.Unblock)
      ensures rv == if old(unblocked) then MsgQUnavailableResource else MsgQSuccess
    {
      if unblocked {
        return MsgQUnavailableResource;
      }
      unblocked := true;
      return MsgQSuccess;
    }
  }
}
