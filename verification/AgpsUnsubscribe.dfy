/** Unsubscribing from the emergency (DS) machine: every subscriber is told at once
    and stays on the list, whatever the state. */
module AgpsUnsubscribes {
  import opened Agps
  import opened AgpsLedger
  import opened AgpsEmergency

  /** Nobody is listed twice, and everybody waits for the close. */
  ghost predicate Tidy(subs: seq<Subscriber>) {
    (forall id :: Count(subs, id) <= 1) && forall s :: s in subs ==> s.waits
  }

  lemma TidyAdd(m: Machine, s: Subscriber)
    requires Tidy(m.subs) && s.waits
    ensures Tidy(AddSubscriber(m, s).subs)
  {
    if !Has(m.subs, Only(s.id)) {
      var added := [s.(inactive := false)] + m.subs;
      assert added[1..] == m.subs;
      CountIn(m.subs, s.id);
      forall id ensures Count(added, id) <= 1 {
        assert Count(m.subs, id) <= 1;
      }
    }
  }

  lemma TidyInactive(m: Machine, i: nat)
    requires Tidy(m.subs) && i < |m.subs|
    ensures Tidy(SetInactive(m, i).subs)
  {
    var s, after := m.subs[i].(inactive := true), SetInactive(m, i).subs;
    forall id ensures Count(after, id) <= 1 {
      CountUpdate(m.subs, i, s, id);
    }
  }

  lemma TidyUnmatched(subs: seq<Subscriber>, r: Receiver)
    requires Tidy(subs)
    ensures Tidy(Unmatched(subs, r))
  {
    forall id ensures Count(Unmatched(subs, r), id) <= 1 {
      CountSplits(subs, r, id);
    }
    forall s | s in Unmatched(subs, r) ensures s.waits {
      MatchedIn(subs, r, s);
    }
  }

  lemma SubscribeTidy(m: Machine, s: Subscriber, answer: Answer)
    requires IsDs(m) && Tidy(m.subs) && s.waits
    ensures Tidy(SubscribeRsrc(m, s, answer).subs)
  {
    TidyAdd(m, s);
    TidyAdd(m.Log(Notified(s.id, Granted)), s);
    SendKeepsPhase(AddSubscriber(m, s), Request, answer);
  }

  /** What an unsubscribe leaves of the list: its subscriber is inactive. */
  lemma UnsubscribedList(m: Machine, i: nat, answer: Answer)
    requires IsDs(m) && m.phase != InReleased && i < |m.subs| && m.subs[i].waits
    ensures var w, m' := SetInactive(m, i), UnsubscribeOn(m, i, answer); m'.subs == w.subs && w.log <= m'.log
  {
    var w := Withdraw(m, i);
    SendKeepsPhase(w.(phase := InReleasing), Release, answer);
    SendGrowsLog(w.(phase := InReleasing), Release, answer);
  }

  lemma UnsubscribeTidy(m: Machine, id: int, answer: Answer)
    requires IsDs(m) && Tidy(m.subs)
    ensures Tidy(UnsubscribeRsrc(m, id, answer).subs)
  {
    var i := First(m.subs, Only(id));
    if i < |m.subs| && m.phase != InReleased {
      assert m.subs[i] in m.subs;
      UnsubscribedList(m, i, answer);
      TidyInactive(m, i);
    }
  }

  lemma EventOnTidy(m: Machine, e: Status, answer: Answer)
    requires IsDs(m) && Tidy(m.subs)
    ensures Tidy(EventOn(m, e, answer).subs)
  {
    TidyUnmatched(m.subs, AllSubs);
    TidyUnmatched(m.subs, InactiveSubs);
    var n := NotifySubscribers(m, Notification(InactiveSubs, e, true));
    SendKeepsPhase(n.(phase := InPending), Request, answer);
  }

  lemma EventTidy(m: Machine, e: Status, answer: Answer)
    requires IsDs(m) && Tidy(m.subs)
    ensures Tidy(OnRsrcEvent(m, e, answer).subs)
  {
    var l := m.Log(In(e));
    EventOnTidy(l, e, answer);
    EventOnStrands(l, e, answer);
    EventOnTidy(EventOn(l, e, answer).Log(In(Denied)), Denied, answer);
  }

  /** Whoever is listed in Released is active. */
  ghost predicate ActiveInReleased(m: Machine) {
    m.phase == InReleased ==> forall s :: s in m.subs ==> !s.inactive
  }

  lemma CallKeepsActive(m: Machine, c: Call)
    requires IsDs(m) && ActiveInReleased(m)
    ensures ActiveInReleased(Do(m, c))
  {
    CallStrandsExactly(m, c);
    if m.phase == InReleased {
      match c
      case DoSubscribe(s, answer) => SubscribeLists(m, s, answer);
      case DoEvent(e, answer) => EventKeepsList(m, e, answer);
      case _ =>
    }
  }

  /** An emergency subscriber always waits for the close. */
  predicate DsCall(c: Call) {
    c.DoSubscribe? ==> c.s.waits
  }

  lemma {:induction false} ListStaysTidy(cs: seq<Call>)
    requires forall k :: 0 <= k < |cs| ==> DsCall(cs[k])
    ensures Tidy(DsAfter(cs).subs) && ActiveInReleased(DsAfter(cs))
  {
    if cs != [] {
      var before, c := cs[..|cs| - 1], cs[|cs| - 1];
      var m := DsAfter(before);
      ListStaysTidy(before);
      AlwaysDs(before);
      CallKeepsActive(m, c);
      match c
      case DoSubscribe(s, answer) => SubscribeTidy(m, s, answer);
      case DoUnsubscribe(id, answer) => UnsubscribeTidy(m, id, answer);
      case DoEvent(e, answer) => EventTidy(m, e, answer);
      case DoDrop =>
    }
  }

  // ----- what an unsubscribe does -----

  /** `id` is listed and has not been set inactive. */
  ghost predicate Wanted(m: Machine, id: int) {
    exists s :: s in m.subs && s.id == id && !s.inactive
  }

  /** Of any emergency machine, for any subscriber: the answer comes first. */
  lemma AnsweredFirst(m: Machine, id: int, answer: Answer)
    requires IsDs(m) && Listed(m, id)
    ensures m.log + [Notified(id, Unsubscribe)] <= Do(m, DoUnsubscribe(id, answer)).log
  {
    var i := First(m.subs, Only(id));
    if m.phase != InReleased {
      WithdrawAnswers(m, i);
      SendGrowsLog(Withdraw(m, i).(phase := InReleased), Release, answer);
      SendGrowsLog(Withdraw(m, i).(phase := InReleasing), Release, answer);
    }
  }

  lemma WithdrawAnswers(m: Machine, i: nat)
    requires m.ds && i < |m.subs|
    ensures m.log + [Notified(m.subs[i].id, Unsubscribe)] <= Withdraw(m, i).log
  {
    var s := m.subs[i];
    if !s.waits {
      var hit := Matched(m.subs, Only(s.id));
      MatchedIn(m.subs, Only(s.id), s);
      assert hit[0] in hit;
      MatchedIn(m.subs, Only(s.id), hit[0]);
    }
  }

  /** Once it is set inactive, an only one is not wanted. */
  lemma InactiveIsUnwanted(m: Machine, i: nat)
    requires Tidy(m.subs) && i < |m.subs|
    ensures var w := SetInactive(m, i); Listed(w, m.subs[i].id) && !Wanted(w, m.subs[i].id)
  {
    var w, id := SetInactive(m, i), m.subs[i].id;
    assert w.subs[i].id == id && w.subs[i] in w.subs;
    ListedMeans(w.subs, id);
    TidyInactive(m, i);
    forall s | s in w.subs && s.id == id ensures s.inactive {
      OnlyOneOf(w.subs, s, w.subs[i]);
    }
  }

  lemma UnsubscribeLeavesListed(m: Machine, id: int, answer: Answer)
    requires IsDs(m) && Tidy(m.subs) && ActiveInReleased(m) && Listed(m, id)
    ensures var m' := Do(m, DoUnsubscribe(id, answer));
      && Listed(m', id) && (Wanted(m', id) <==> m.phase == InReleased)
      && (m.phase == InReleased ==> m' == m.Log(Notified(id, Unsubscribe)))
  {
    var i := First(m.subs, Only(id));
    assert m.subs[i] in m.subs;
    if m.phase != InReleased {
      UnsubscribedList(m, i, answer);
      InactiveIsUnwanted(m, i);
    }
  }

  /** Over every run of the emergency machine: an unsubscribe that finds its
      subscriber answers it at once, before anything else, and leaves it on the
      list.  It stays active there, and nothing else happens, exactly if its own
      request failed in Released with no success since; otherwise it is set
      inactive. */
  lemma EveryUnsubscribeIsAnswered(cs: seq<Call>, id: int, answer: Answer)
    requires forall k :: 0 <= k < |cs| ==> DsCall(cs[k])
    ensures var m, m' := DsAfter(cs), DsAfter(cs + [DoUnsubscribe(id, answer)]);
      if !Listed(m, id) then m' == m
      else
        && m.log + [Notified(id, Unsubscribe)] <= m'.log && Listed(m', id)
        && (Wanted(m', id) <==> FailedFor(cs, id))
        && (FailedFor(cs, id) ==> m' == m.Log(Notified(id, Unsubscribe)))
  {
    var m := DsAfter(cs);
    DsAfterSnoc(cs, DoUnsubscribe(id, answer));
    ListStaysTidy(cs);
    AlwaysDs(cs);
    FoundInReleasedExactly(cs, id);
    if Listed(m, id) {
      AnsweredFirst(m, id, answer);
      UnsubscribeLeavesListed(m, id, answer);
    }
  }
}
