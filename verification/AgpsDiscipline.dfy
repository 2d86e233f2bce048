/** The base machine's dealings with the connectivity service, over every run. */
module AgpsDiscipline {
  import opened Agps

  // ----- histories -----

  predicate Frees(i: Item) {
    i == Out(Release) || i == In(Denied) || i == In(Released)
  }

  /** The last call to the service was a request. */
  ghost predicate Held(log: seq<Item>) {
    log != [] &&
    (log[|log| - 1] == Out(Request) || (log[|log| - 1] != Out(Release) && Held(log[..|log| - 1])))
  }

  /** Since the last request, if any, the resource was released or taken away. */
  ghost predicate Freed(log: seq<Item>) {
    log == [] || Frees(log[|log| - 1]) || (log[|log| - 1] != Out(Request) && Freed(log[..|log| - 1]))
  }

  ghost predicate Disciplined(log: seq<Item>) {
    log == [] ||
    var before, last := log[..|log| - 1], log[|log| - 1];
    && Disciplined(before)
    && (last == Out(Release) ==> Held(before))
    && (last == Out(Request) ==> Freed(before))
    && !last.HeldBack?
  }

  lemma Snoc(log: seq<Item>, i: Item)
    ensures (log + [i])[..|log + [i]| - 1] == log
    ensures Held(log + [i]) <==> i == Out(Request) || (i != Out(Release) && Held(log))
    ensures Freed(log + [i]) <==> Frees(i) || (i != Out(Request) && Freed(log))
    ensures Disciplined(log + [i]) <==>
      Disciplined(log) && (i == Out(Release) ==> Held(log)) && (i == Out(Request) ==> Freed(log)) && !i.HeldBack?
  {
    assert (log + [i])[..|log + [i]| - 1] == log;
  }

  predicate Neutral(i: Item) {
    !i.Out? && !i.In? && !i.HeldBack?
  }

  lemma {:induction false} NeutralTail(log: seq<Item>, tail: seq<Item>)
    requires forall k :: 0 <= k < |tail| ==> Neutral(tail[k])
    ensures Held(log + tail) == Held(log) && Freed(log + tail) == Freed(log)
    ensures Disciplined(log + tail) == Disciplined(log)
  {
    if tail == [] {
      assert log + tail == log;
    } else {
      var n := |tail| - 1;
      NeutralTail(log, tail[..n]);
      Snoc(log + tail[..n], tail[n]);
      assert log + tail == (log + tail[..n]) + [tail[n]];
    }
  }

  lemma {:induction false} NoticesAreNeutral(hit: seq<Subscriber>, s: Status)
    ensures forall k :: 0 <= k < |Notices(hit, s)| ==> Neutral(Notices(hit, s)[k])
  {
    if hit != [] {
      NoticesAreNeutral(hit[1..], s);
    }
  }

  lemma {:induction false} DropsAreNeutral(subs: seq<Subscriber>)
    ensures forall k :: 0 <= k < |Drops(subs)| ==> Neutral(Drops(subs)[k])
  {
    if subs != [] {
      DropsAreNeutral(subs[1..]);
    }
  }

  // ----- the invariant -----

  ghost predicate HoldsResource(p: Phase) {
    p == InPending || p == InAcquired
  }

  ghost predicate InStep(m: Machine) {
    && !m.ds && Disciplined(m.log)
    && (if HoldsResource(m.phase) then Held(m.log) else Freed(m.log))
    && (m.phase == InReleased ==> m.subs == [])
  }

  lemma {:induction false} UnmatchedAll(subs: seq<Subscriber>)
    ensures Unmatched(subs, AllSubs) == []
  {
    if subs != [] {
      UnmatchedAll(subs[1..]);
    }
  }

  /** Everything but the phase is in step when the notices go out. */
  lemma NotifyKeepsLog(m: Machine, n: Notification)
    ensures var m' := NotifySubscribers(m, n);
      && Held(m'.log) == Held(m.log) && Freed(m'.log) == Freed(m.log)
      && Disciplined(m'.log) == Disciplined(m.log)
  {
    NoticesAreNeutral(Matched(m.subs, n.rcver), n.status);
    NeutralTail(m.log, Notices(Matched(m.subs, n.rcver), n.status));
  }

  lemma AddKeepsLog(m: Machine, s: Subscriber)
    ensures var m' := AddSubscriber(m, s);
      && Held(m'.log) == Held(m.log) && Freed(m'.log) == Freed(m.log)
      && Disciplined(m'.log) == Disciplined(m.log) && m'.subs != []
      && (m.subs == [] ==> Has(m'.subs, ActiveSubs))
  {
    Snoc(m.log, Joined(s.id));
  }

  lemma FirstRequestInStep(m: Machine, s: Subscriber, answer: Answer)
    requires InStep(m) && m.phase == InReleased
    ensures InStep(SubscribeOn(m, s, answer))
  {
    var m' := AddSubscriber(m, s);
    AddKeepsLog(m, s);
    Snoc(m'.log, Out(Request));
  }

  lemma SubscribeInStep(m: Machine, s: Subscriber, answer: Answer)
    requires InStep(m)
    ensures InStep(SubscribeOn(m, s, answer))
  {
    match m.phase
    case InReleased => FirstRequestInStep(m, s, answer);
    case InAcquired =>
      Snoc(m.log, Notified(s.id, Granted));
      AddKeepsLog(m.Log(Notified(s.id, Granted)), s);
    case _ => AddKeepsLog(m, s);
  }

  lemma WithdrawKeepsLog(m: Machine, i: nat)
    requires i < |m.subs|
    ensures var m' := Withdraw(m, i);
      && m'.phase == m.phase && m'.ds == m.ds
      && Held(m'.log) == Held(m.log) && Freed(m'.log) == Freed(m.log)
      && Disciplined(m'.log) == Disciplined(m.log)
  {
    NotifyKeepsLog(m, Notification(Only(m.subs[i].id), Unsubscribe, true));
    Snoc(m.log, Notified(m.subs[i].id, Unsubscribe));
  }

  lemma UnsubscribeInStep(m: Machine, i: nat, answer: Answer)
    requires InStep(m) && i < |m.subs|
    ensures InStep(UnsubscribeOn(m, i, answer))
  {
    WithdrawKeepsLog(m, i);
    if HoldsResource(m.phase) {
      ReleaseInStep(Withdraw(m, i), answer);
    }
  }

  lemma ReleaseInStep(m: Machine, answer: Answer)
    requires InStep(m) && HoldsResource(m.phase)
    ensures InStep(ReleaseIfUnused(m, answer))
  {
    Snoc(m.log, Out(Release));
  }

  lemma GroupEventInStep(m: Machine, e: Status, answer: Answer)
    requires InStep(m) && HoldsResource(m.phase)
    ensures InStep(EventOn(m.Log(In(e)), e, answer))
  {
    var l := m.Log(In(e));
    Snoc(m.log, In(e));
    if m.phase == InPending && e == Granted {
      NotifyKeepsLog(l.(phase := InAcquired), Notification(ActiveSubs, e, false));
    } else if (m.phase == InPending && e == Denied) || (m.phase == InAcquired && e == Released) {
      NotifyKeepsLog(l.(phase := InReleased), Notification(AllSubs, e, true));
      UnmatchedAll(l.subs);
    }
  }

  lemma CloseEventInStep(m: Machine, e: Status, answer: Answer)
    requires InStep(m) && m.phase == InReleasing && (e == Denied || e == Released)
    ensures InStep(AfterClose(m.Log(In(e)), e, answer))
  {
    var l := m.Log(In(e));
    var n := NotifySubscribers(l, Notification(InactiveSubs, e, true));
    Snoc(m.log, In(e));
    NotifyKeepsLog(l, Notification(InactiveSubs, e, true));
    Snoc(n.log, Out(Request));
    NoActiveAfterInactiveLeft(l.subs);
  }

  lemma EventInStep(m: Machine, e: Status, answer: Answer)
    requires InStep(m)
    ensures InStep(OnRsrcEvent(m, e, answer))
  {
    if e != Subscribe && e != Unsubscribe {
      Snoc(m.log, In(e));
      if HoldsResource(m.phase) {
        GroupEventInStep(m, e, answer);
      } else if m.phase == InReleasing && (e == Denied || e == Released) {
        CloseEventInStep(m, e, answer);
      }
    }
  }

  /** When the inactive subscribers leave and nobody active stays, nobody stays. */
  lemma {:induction false} NoActiveAfterInactiveLeft(subs: seq<Subscriber>)
    ensures Has(Unmatched(subs, InactiveSubs), ActiveSubs) || Unmatched(subs, InactiveSubs) == []
  {
    if subs != [] {
      NoActiveAfterInactiveLeft(subs[1..]);
      if subs[0].inactive {
        assert Unmatched(subs, InactiveSubs) == Unmatched(subs[1..], InactiveSubs);
      } else {
        assert Unmatched(subs, InactiveSubs)[0] == subs[0];
      }
    }
  }

  lemma DoInStep(m: Machine, c: Call)
    requires InStep(m)
    ensures InStep(Do(m, c))
  {
    match c
    case DoSubscribe(s, answer) =>
      Snoc(m.log, Refused(s.id));
      SubscribeInStep(m, s, answer);
    case DoUnsubscribe(id, answer) =>
      if First(m.subs, Only(id)) < |m.subs| {
        UnsubscribeInStep(m, First(m.subs, Only(id)), answer);
      }
    case DoEvent(e, answer) => EventInStep(m, e, answer);
    case DoDrop =>
      DropsAreNeutral(m.subs);
      NeutralTail(m.log, Drops(m.subs));
  }

  lemma {:induction false} RunInStep(single: bool, cs: seq<Call>)
    ensures InStep(Run(NewMachine(single, false), cs))
  {
    if cs != [] {
      RunInStep(single, cs[..|cs| - 1]);
      DoInStep(Run(NewMachine(single, false), cs[..|cs| - 1]), cs[|cs| - 1]);
    }
  }

  // ----- what it means -----

  lemma {:induction false} HeldMeans(log: seq<Item>)
    requires Held(log)
    ensures exists i :: 0 <= i < |log| && log[i] == Out(Request)
                        && forall k :: i < k < |log| ==> log[k] != Out(Release)
  {
    var n := |log| - 1;
    if log[n] != Out(Request) {
      HeldMeans(log[..n]);
      var i :| 0 <= i < n && log[..n][i] == Out(Request)
               && forall k :: i < k < n ==> log[..n][k] != Out(Release);
      assert log[i] == Out(Request);
      assert forall k :: i < k < n ==> log[k] == log[..n][k];
    }
  }

  lemma {:induction false} FreedMeans(log: seq<Item>, i: nat)
    requires Freed(log) && i < |log| && log[i] == Out(Request)
    ensures exists k :: i < k < |log| && Frees(log[k])
  {
    var n := |log| - 1;
    if !Frees(log[n]) {
      FreedMeans(log[..n], i);
      var k :| i < k < n && Frees(log[..n][k]);
      assert Frees(log[k]);
    }
  }

  /** Discipline, said of positions in a history. */
  ghost predicate ReleaseAfterRequest(log: seq<Item>, j: nat)
    requires j < |log|
  {
    log[j] == Out(Release) ==>
      exists i :: 0 <= i < j && log[i] == Out(Request) && forall k :: i < k < j ==> log[k] != Out(Release)
  }

  ghost predicate RequestAfterFree(log: seq<Item>, i: nat, j: nat)
    requires i < j < |log|
  {
    log[i] == Out(Request) && log[j] == Out(Request) ==> exists k :: i < k < j && Frees(log[k])
  }

  lemma {:induction false} DisciplineMeans(log: seq<Item>, j: nat)
    requires Disciplined(log) && j < |log|
    ensures ReleaseAfterRequest(log, j) && !log[j].HeldBack?
    ensures forall i: nat :: i < j ==> RequestAfterFree(log, i, j)
  {
    var n := |log| - 1;
    var before := log[..n];
    if j < n {
      DisciplineMeans(before, j);
      if log[j] == Out(Release) {
        var i :| 0 <= i < j && before[i] == Out(Request) && forall k :: i < k < j ==> before[k] != Out(Release);
        assert log[i] == Out(Request);
        assert forall k :: i < k < j ==> log[k] == before[k];
      }
      forall i: nat | i < j ensures RequestAfterFree(log, i, j) {
        assert RequestAfterFree(before, i, j);
        if log[i] == Out(Request) && log[j] == Out(Request) {
          var k :| i < k < j && Frees(before[k]);
          assert Frees(log[k]);
        }
      }
    } else {
      if log[n] == Out(Release) {
        HeldMeans(before);
        var i :| 0 <= i < n && before[i] == Out(Request) && forall k :: i < k < n ==> before[k] != Out(Release);
        assert log[i] == Out(Request);
        assert forall k :: i < k < n ==> log[k] == before[k];
      }
      forall i: nat | i < n ensures RequestAfterFree(log, i, n) {
        if log[i] == Out(Request) && log[n] == Out(Request) {
          FreedMeans(before, i);
          var k :| i < k < n && Frees(before[k]);
          assert Frees(log[k]);
        }
      }
    }
  }

  /** Over every sequence of calls and service events, engine restarts included:
      every RELEASE answers a REQUEST of its own that came before it; two
      REQUESTs always have a RELEASE, or a DENIED or RELEASED event, between
      them; the send guard never holds anything back; and in the Released state
      the list is empty. */
  lemma ServiceIsAskedInTurn(single: bool, cs: seq<Call>)
    ensures var m := Run(NewMachine(single, false), cs);
      && (forall j: nat :: j < |m.log| ==> ReleaseAfterRequest(m.log, j) && !m.log[j].HeldBack?)
      && (forall i: nat, j: nat :: i < j < |m.log| ==> RequestAfterFree(m.log, i, j))
      && (m.phase == InReleased ==> m.subs == [])
  {
    var m := Run(NewMachine(single, false), cs);
    RunInStep(single, cs);
    forall j: nat | j < |m.log|
      ensures ReleaseAfterRequest(m.log, j) && !m.log[j].HeldBack?
      ensures forall i: nat :: i < j ==> RequestAfterFree(m.log, i, j)
    {
      DisciplineMeans(m.log, j);
    }
  }
}
