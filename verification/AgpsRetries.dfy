/** The emergency (DS) machine: bounded retries of the data call. */
module AgpsRetries {
  import opened Agps

  /** A fallback to the ordinary machine, by a failed request or by a DENIED. */
  predicate Resets(i: Item) {
    i.Fallback? || (i.Notified? && i.s == Denied)
  }

  /** ENGINE_BUSY answers since the last reset. */
  function BusySinceReset(log: seq<Item>): nat {
    if log == [] then 0
    else
      var last := log[|log| - 1];
      if Resets(last) then 0 else BusySinceReset(log[..|log| - 1]) + if last.Busy? then 1 else 0
  }

  lemma BusySnoc(log: seq<Item>, i: Item)
    ensures BusySinceReset(log + [i]) ==
      if Resets(i) then 0 else BusySinceReset(log) + if i.Busy? then 1 else 0
  {
    assert (log + [i])[..|log + [i]| - 1] == log;
  }

  /** Never more than five busy answers between resets, whatever prefix of the
      history one looks at. */
  ghost predicate AtMostFive(log: seq<Item>) {
    forall k :: 0 <= k <= |log| ==> BusySinceReset(log[..k]) <= MAX_START_DATA_CALL_RETRIES + 1
  }

  lemma AtMostFiveSnoc(log: seq<Item>, i: Item)
    requires AtMostFive(log) && BusySinceReset(log + [i]) <= MAX_START_DATA_CALL_RETRIES + 1
    ensures AtMostFive(log + [i])
  {
    forall k | 0 <= k <= |log + [i]|
      ensures BusySinceReset((log + [i])[..k]) <= MAX_START_DATA_CALL_RETRIES + 1
    {
      if k <= |log| {
        assert (log + [i])[..k] == log[..k];
      } else {
        assert (log + [i])[..k] == log + [i];
      }
    }
  }

  /** The item after position `j` is a fallback. */
  predicate FallsBackAt(log: seq<Item>, j: nat)
    requires j < |log|
  {
    j + 1 < |log| && log[j + 1].Fallback?
  }

  ghost predicate TurnAt(log: seq<Item>, j: nat)
    requires j < |log|
  {
    log[j].Busy? ==> (FallsBackAt(log, j) <==> BusySinceReset(log[..j + 1]) == MAX_START_DATA_CALL_RETRIES + 1)
  }

  /** A busy answer is followed by a fallback exactly when it is the fifth; the
      very last item of the history may still have this to come. */
  ghost predicate FallsBackInTurn(log: seq<Item>) {
    forall j: nat :: j < |log| - 1 ==> TurnAt(log, j)
  }

  lemma InTurnSnoc(log: seq<Item>, i: Item)
    requires FallsBackInTurn(log)
    requires log != [] && log[|log| - 1].Busy? ==>
      (i.Fallback? <==> BusySinceReset(log) == MAX_START_DATA_CALL_RETRIES + 1)
    ensures FallsBackInTurn(log + [i])
  {
    forall j: nat | j < |log + [i]| - 1 ensures TurnAt(log + [i], j) {
      TurnSnoc(log, i, j);
    }
  }

  lemma TurnSnoc(log: seq<Item>, i: Item, j: nat)
    requires j < |log| && (j < |log| - 1 ==> TurnAt(log, j))
    requires log[|log| - 1].Busy? ==> (i.Fallback? <==> BusySinceReset(log) == MAX_START_DATA_CALL_RETRIES + 1)
    ensures TurnAt(log + [i], j)
  {
    assert (log + [i])[..j + 1] == log[..j + 1];
    if j == |log| - 1 {
      assert log[..j + 1] == log;
    }
  }

  ghost predicate Bounded(m: Machine) {
    && m.ds && m.retries == BusySinceReset(m.log) <= MAX_START_DATA_CALL_RETRIES
    && AtMostFive(m.log) && FallsBackInTurn(m.log)
  }

  lemma LogBounded(m: Machine, i: Item)
    requires Bounded(m) && !Resets(i) && !i.Busy?
    ensures Bounded(m.Log(i))
  {
    BusySnoc(m.log, i);
    AtMostFiveSnoc(m.log, i);
    InTurnSnoc(m.log, i);
  }

  lemma {:induction false} NoticesBounded(m: Machine, hit: seq<Subscriber>, s: Status)
    requires Bounded(m)
    ensures Bounded(m.(log := m.log + Notices(hit, s),
                       retries := if s == Denied && hit != [] then 0 else m.retries))
    decreases |hit|
  {
    var tail := Notices(hit, s);
    if hit == [] {
      assert m.log + tail == m.log;
    } else {
      BusySnoc(m.log, tail[0]);
      AtMostFiveSnoc(m.log, tail[0]);
      InTurnSnoc(m.log, tail[0]);
      var m1 := m.(log := m.log + [tail[0]], retries := if s == Denied then 0 else m.retries);
      assert m.log + tail == m1.log + tail[1..];
      assert tail[1..] == Notices(hit[1..], s);
      NoticesBounded(m1, hit[1..], s);
    }
  }

  lemma NotifyBounded(m: Machine, n: Notification)
    requires Bounded(m)
    ensures Bounded(NotifySubscribers(m, n))
  {
    NoticesBounded(m, Matched(m.subs, n.rcver), n.status);
  }

  lemma GiveUpBounded(m: Machine, id: int)
    requires m.ds && AtMostFive(m.log) && FallsBackInTurn(m.log) && m.log != []
    requires m.log[|m.log| - 1].Busy? ==> BusySinceReset(m.log) == MAX_START_DATA_CALL_RETRIES + 1
    ensures Bounded(GiveUp(m, id))
  {
    BusySnoc(m.log, Fallback(id));
    AtMostFiveSnoc(m.log, Fallback(id));
    InTurnSnoc(m.log, Fallback(id));
  }

  /** After a busy answer all is well, but for a fallback that may be due. */
  lemma BusyCounts(m: Machine)
    requires Bounded(m)
    ensures var log := m.log + [Busy];
      && BusySinceReset(log) == m.retries + 1
      && AtMostFive(log) && FallsBackInTurn(log)
  {
    BusySnoc(m.log, Busy);
    AtMostFiveSnoc(m.log, Busy);
    InTurnSnoc(m.log, Busy);
  }

  lemma BusyBounded(m: Machine, id: int)
    requires Bounded(m)
    ensures Bounded(HandleAnswer(m, EngineBusy, id))
  {
    BusyCounts(m);
    var m' := m.(retries := m.retries + 1).Log(Busy);
    if m.retries == MAX_START_DATA_CALL_RETRIES {
      GiveUpBounded(m', id);
      assert HandleAnswer(m, EngineBusy, id) == GiveUp(m', id);
    } else {
      assert HandleAnswer(m, EngineBusy, id) == m';
    }
  }

  lemma RefusalBounded(m: Machine, id: int)
    requires Bounded(m) && m.log != [] && m.log[|m.log| - 1].Out?
    ensures Bounded(GiveUp(m, id))
  {
    GiveUpBounded(m, id);
  }

  lemma SendBounded(m: Machine, a: Action, answer: Answer)
    requires Bounded(m)
    ensures Bounded(SendRsrcRequest(m, a, answer).0)
  {
    LogBounded(m, Out(a));
    AnswerBounded(m.Log(Out(a)), answer, ConnHandle(m.subs));
  }

  lemma AnswerBounded(m: Machine, answer: Answer, id: int)
    requires Bounded(m) && m.log != [] && m.log[|m.log| - 1].Out?
    ensures Bounded(HandleAnswer(m, answer, id))
  {
    if answer == EngineBusy {
      BusyBounded(m, id);
    } else if answer == Unsupported || answer == Failure {
      RefusalBounded(m, id);
      assert HandleAnswer(m, answer, id) == GiveUp(m, id);
    }
  }

  /** What a request for the data call, or its release, leaves in the history: a busy
      answer is noted; and an unsupported or failed one, or the fifth busy one since
      the last reset, sends the first active subscriber back to the ordinary way. */
  lemma AnswersAreHandled(m: Machine, a: Action, answer: Answer)
    requires Bounded(m)
    ensures var (m', sent) := SendRsrcRequest(m, a, answer);
      var falls := answer == Unsupported || answer == Failure
        || (answer == EngineBusy && BusySinceReset(m.log) == MAX_START_DATA_CALL_RETRIES);
      && sent == (answer == Ok) && m'.subs == m.subs && m'.phase == m.phase
      && m'.log == m.log + [Out(a)] + (if answer == EngineBusy then [Busy] else [])
                   + if falls then [Fallback(ConnHandle(m.subs))] else []
  {
    assert m.log + [Out(a)] + [] == m.log + [Out(a)];
    assert m.log + [Out(a)] + [Busy] + [] == m.log + [Out(a)] + [Busy];
  }

  /** The connection handle is the first active subscriber's ID, or -1 without one. */
  lemma {:induction false} HandleIsFirstActive(subs: seq<Subscriber>, i: nat)
    requires i < |subs| && !subs[i].inactive && forall j :: 0 <= j < i ==> subs[j].inactive
    ensures ConnHandle(subs) == subs[i].id
  {
    FirstIs(subs, i);
  }

  lemma {:induction false} FirstIs(subs: seq<Subscriber>, i: nat)
    requires i < |subs| && !subs[i].inactive && forall j :: 0 <= j < i ==> subs[j].inactive
    ensures First(subs, ActiveSubs) == i
  {
    if i > 0 {
      FirstIs(subs[1..], i - 1);
    }
  }

  lemma AddBounded(m: Machine, s: Subscriber)
    requires Bounded(m)
    ensures Bounded(AddSubscriber(m, s))
  {
    LogBounded(m, Joined(s.id));
  }

  lemma SubscribeBounded(m: Machine, s: Subscriber, answer: Answer)
    requires Bounded(m)
    ensures Bounded(SubscribeOn(m, s, answer))
  {
    match m.phase
    case InReleased =>
      AddBounded(m, s);
      SendBounded(AddSubscriber(m, s), Request, answer);
    case InAcquired =>
      LogBounded(m, Notified(s.id, Granted));
      AddBounded(m.Log(Notified(s.id, Granted)), s);
    case _ => AddBounded(m, s);
  }

  lemma WithdrawBounded(m: Machine, i: nat)
    requires Bounded(m) && i < |m.subs|
    ensures Bounded(Withdraw(m, i))
  {
    NotifyBounded(m, Notification(Only(m.subs[i].id), Unsubscribe, true));
    LogBounded(m, Notified(m.subs[i].id, Unsubscribe));
  }

  lemma ReleaseBounded(m: Machine, answer: Answer)
    requires Bounded(m)
    ensures Bounded(ReleaseIfUnused(m, answer))
  {
    if m.subs == [] {
      SendBounded(m.(phase := InReleased), Release, answer);
    } else if !Has(m.subs, ActiveSubs) {
      SendBounded(m.(phase := InReleasing), Release, answer);
    }
  }

  lemma UnsubscribeBounded(m: Machine, i: nat, answer: Answer)
    requires Bounded(m) && i < |m.subs|
    ensures Bounded(UnsubscribeOn(m, i, answer))
  {
    if m.phase == InReleased {
      LogBounded(m, Notified(m.subs[i].id, Unsubscribe));
    } else {
      WithdrawBounded(m, i);
      ReleaseBounded(Withdraw(m, i), answer);
    }
  }

  lemma CloseBounded(m: Machine, e: Status, answer: Answer)
    requires Bounded(m)
    ensures Bounded(AfterClose(m, e, answer))
  {
    NotifyBounded(m, Notification(InactiveSubs, e, true));
    var m' := NotifySubscribers(m, Notification(InactiveSubs, e, true));
    SendBounded(m'.(phase := InPending), Request, answer);
  }

  lemma EventOnBounded(m: Machine, e: Status, answer: Answer)
    requires Bounded(m)
    ensures Bounded(EventOn(m, e, answer))
  {
    match (m.phase, e)
    case (InPending, Granted) => NotifyBounded(m.(phase := InAcquired), Notification(ActiveSubs, e, false));
    case (InPending, Denied) => NotifyBounded(m.(phase := InReleased), Notification(AllSubs, e, true));
    case (InAcquired, Released) => NotifyBounded(m.(phase := InReleased), Notification(AllSubs, e, true));
    case (InReleasing, Released) => CloseBounded(m, e, answer);
    case (InReleasing, Denied) => CloseBounded(m, e, answer);
    case _ =>
  }

  lemma EventBounded(m: Machine, e: Status, answer: Answer)
    requires Bounded(m)
    ensures Bounded(OnRsrcEvent(m, e, answer))
  {
    HandledBounded(m, e, answer);
    HandledBounded(EventOn(m.Log(In(e)), e, answer), Denied, answer);
  }

  lemma HandledBounded(m: Machine, e: Status, answer: Answer)
    requires Bounded(m)
    ensures Bounded(EventOn(m.Log(In(e)), e, answer))
  {
    LogBounded(m, In(e));
    EventOnBounded(m.Log(In(e)), e, answer);
  }

  lemma DoBounded(m: Machine, c: Call)
    requires Bounded(m)
    ensures Bounded(Do(m, c))
  {
    match c
    case DoSubscribe(s, answer) =>
      LogBounded(m, Refused(s.id));
      SubscribeBounded(m, s, answer);
    case DoUnsubscribe(id, answer) =>
      if First(m.subs, Only(id)) < |m.subs| {
        UnsubscribeBounded(m, First(m.subs, Only(id)), answer);
      }
    case DoEvent(e, answer) => EventBounded(m, e, answer);
    case DoDrop =>
  }

  /** Over every run of the emergency machine the retry count is the number of
      busy answers since the last reset, at most four between calls; and no
      stretch of any history has more than five without a reset. */
  lemma RetriesAreBounded(single: bool, cs: seq<Call>)
    ensures var m := Run(NewMachine(single, true), cs);
      m.retries == BusySinceReset(m.log) <= MAX_START_DATA_CALL_RETRIES && AtMostFive(m.log)
  {
    RunBounded(single, cs);
  }

  lemma {:induction false} RunBounded(single: bool, cs: seq<Call>)
    ensures Bounded(Run(NewMachine(single, true), cs))
  {
    if cs != [] {
      RunBounded(single, cs[..|cs| - 1]);
      DoBounded(Run(NewMachine(single, true), cs[..|cs| - 1]), cs[|cs| - 1]);
    } else {
      assert AtMostFive(NewMachine(single, true).log);
    }
  }

  /** Over every run and at every position of its history: a busy answer hands the
      call to the ordinary machine, then and there, exactly when it is the fifth
      since the last reset. */
  lemma FifthBusyFallsBack(single: bool, cs: seq<Call>, j: nat)
    requires var log := Run(NewMachine(single, true), cs).log; j < |log| && log[j].Busy?
    ensures var log := Run(NewMachine(single, true), cs).log;
      FallsBackAt(log, j) <==> BusySinceReset(log[..j + 1]) == MAX_START_DATA_CALL_RETRIES + 1
  {
    RunBounded(single, cs);
    var log := Run(NewMachine(single, true), cs).log;
    if j == |log| - 1 {
      assert log[..j + 1] == log;
    } else {
      assert TurnAt(log, j);
    }
  }
}
