/** What is special about the emergency (DS) machine: it can be in Released with
    subscribers on its list, it tells every subscriber of its unsubscribe at once,
    and outside Released a RELEASED always moves it on. */
module AgpsEmergency {
  import opened Agps
  import opened AgpsDiscipline

  /** In Released, although somebody is listed. */
  predicate Stranded(m: Machine) {
    m.phase == InReleased && m.subs != []
  }

  /** The machine is the emergency one, which takes any number of subscribers. */
  predicate IsDs(m: Machine) {
    m.ds && !m.single
  }

  lemma SendKeepsPhase(m: Machine, a: Action, answer: Answer)
    ensures var m' := SendRsrcRequest(m, a, answer).0;
      m'.phase == m.phase && m'.subs == m.subs && m'.ds == m.ds && m'.single == m.single
  {
  }

  lemma AddKeepsPhase(m: Machine, s: Subscriber)
    ensures var m' := AddSubscriber(m, s);
      m'.phase == m.phase && m'.subs != [] && m'.ds == m.ds && m'.single == m.single
  {
  }

  lemma RequestStrands(m: Machine, s: Subscriber, answer: Answer)
    requires IsDs(m) && m.phase == InReleased
    ensures IsDs(SubscribeOn(m, s, answer))
    ensures Stranded(SubscribeOn(m, s, answer)) <==> answer != Ok
  {
    AddKeepsPhase(m, s);
    SendKeepsPhase(AddSubscriber(m, s), Request, answer);
  }

  lemma SubscribeStrands(m: Machine, s: Subscriber, answer: Answer)
    requires IsDs(m)
    ensures IsDs(SubscribeOn(m, s, answer))
    ensures Stranded(SubscribeOn(m, s, answer)) <==> m.phase == InReleased && answer != Ok
  {
    if m.phase == InReleased {
      RequestStrands(m, s, answer);
    } else {
      AddKeepsPhase(m, s);
      AddKeepsPhase(m.Log(Notified(s.id, Granted)), s);
    }
  }

  lemma UnsubscribeStrands(m: Machine, i: nat, answer: Answer)
    requires IsDs(m) && i < |m.subs|
    ensures IsDs(UnsubscribeOn(m, i, answer))
    ensures Stranded(UnsubscribeOn(m, i, answer)) <==> Stranded(m)
  {
    if m.phase != InReleased {
      var m1 := Withdraw(m, i);
      SendKeepsPhase(m1.(phase := InReleased), Release, answer);
      SendKeepsPhase(m1.(phase := InReleasing), Release, answer);
    }
  }

  lemma CloseStrandsNobody(m: Machine, e: Status, answer: Answer)
    requires IsDs(m)
    ensures IsDs(AfterClose(m, e, answer)) && !Stranded(AfterClose(m, e, answer))
    ensures AfterClose(m, e, answer).phase ==
      if Has(Unmatched(m.subs, InactiveSubs), ActiveSubs) then InPending else InReleased
  {
    var n := Notification(InactiveSubs, e, true);
    NoActiveAfterInactiveLeft(m.subs);
    SendKeepsPhase(NotifySubscribers(m, n).(phase := InPending), Request, answer);
  }

  lemma EventOnStrands(m: Machine, e: Status, answer: Answer)
    requires IsDs(m)
    ensures IsDs(EventOn(m, e, answer))
    ensures Stranded(EventOn(m, e, answer)) <==> Stranded(m)
    ensures m.phase == InReleased ==> EventOn(m, e, answer) == m
  {
    UnmatchedAll(m.subs);
    CloseStrandsNobody(m, e, answer);
  }

  lemma EventStrands(m: Machine, e: Status, answer: Answer)
    requires IsDs(m)
    ensures IsDs(OnRsrcEvent(m, e, answer))
    ensures Stranded(OnRsrcEvent(m, e, answer)) <==> Stranded(m)
  {
    var m1 := m.Log(In(e));
    EventOnStrands(m1, e, answer);
    EventOnStrands(EventOn(m1, e, answer).Log(In(Denied)), Denied, answer);
  }

  /** One call strands the machine exactly if it is a request made in Released
      that was not answered with success, or if it was stranded before and the
      call is not a request. */
  lemma CallStrandsExactly(m: Machine, c: Call)
    requires IsDs(m)
    ensures IsDs(Do(m, c))
    ensures Stranded(Do(m, c)) <==>
      match c
      case DoSubscribe(_, answer) => m.phase == InReleased && answer != Ok
      case _ => Stranded(m)
  {
    match c
    case DoSubscribe(s, answer) => SubscribeStrands(m, s, answer);
    case DoUnsubscribe(id, answer) =>
      if First(m.subs, Only(id)) < |m.subs| {
        UnsubscribeStrands(m, First(m.subs, Only(id)), answer);
      }
    case DoEvent(e, answer) => EventStrands(m, e, answer);
    case DoDrop =>
  }

  // ----- over runs -----

  function DsAfter(cs: seq<Call>): Machine {
    Run(NewMachine(false, true), cs)
  }

  lemma DsAfterSnoc(cs: seq<Call>, c: Call)
    ensures DsAfter(cs + [c]) == Do(DsAfter(cs), c)
  {
    assert (cs + [c])[..|cs|] == cs;
  }

  lemma {:induction false} AlwaysDs(cs: seq<Call>)
    ensures IsDs(DsAfter(cs))
  {
    if cs != [] {
      AlwaysDs(cs[..|cs| - 1]);
      CallStrandsExactly(DsAfter(cs[..|cs| - 1]), cs[|cs| - 1]);
    }
  }

  /** Call `k` asked for the data call in Released, and was not answered with
      success. */
  predicate FailedRequest(cs: seq<Call>, k: nat)
    requires k < |cs|
  {
    cs[k].DoSubscribe? && cs[k].answer != Ok && DsAfter(cs[..k]).phase == InReleased
  }

  /** The call that takes the machine out of this: a request that was answered
      with success.  An engine restart does not. */
  predicate Recovers(c: Call) {
    c.DoSubscribe? && c.answer == Ok
  }

  /** Call `k` failed in Released, and nothing has made up for it since. */
  predicate FailedSince(cs: seq<Call>, k: nat)
    requires k < |cs|
  {
    FailedRequest(cs, k) && forall j :: k < j < |cs| ==> !Recovers(cs[j])
  }

  /** Failures, one call later. */
  lemma FailedSinceSnoc(cs: seq<Call>, c: Call, k: nat)
    requires k <= |cs|
    ensures FailedSince(cs + [c], k) <==>
      if k < |cs| then FailedSince(cs, k) && !Recovers(c)
      else c.DoSubscribe? && c.answer != Ok && DsAfter(cs).phase == InReleased
  {
    var cs' := cs + [c];
    if k < |cs| {
      assert cs'[..k] == cs[..k] && cs'[k] == cs[k];
      assert cs'[|cs|] == c;
      assert forall j :: k < j < |cs| ==> cs'[j] == cs[j];
    } else {
      assert cs'[..k] == cs;
    }
  }

  /** Over every run: the emergency machine is in Released with a subscriber on
      its list exactly when some request made in Released was not answered with
      success, and no successful request has come since. */
  lemma {:induction false} StrandedExactly(cs: seq<Call>)
    ensures Stranded(DsAfter(cs)) <==> exists k: nat :: k < |cs| && FailedSince(cs, k)
  {
    if cs != [] {
      var p, c := cs[..|cs| - 1], cs[|cs| - 1];
      assert cs == p + [c];
      StrandedExactly(p);
      AlwaysDs(p);
      DsAfterSnoc(p, c);
      CallStrandsExactly(DsAfter(p), c);
      forall k: nat | k < |cs|
        ensures FailedSince(cs, k) <==>
          if k < |p| then FailedSince(p, k) && !Recovers(c)
          else c.DoSubscribe? && c.answer != Ok && DsAfter(p).phase == InReleased
      {
        FailedSinceSnoc(p, c, k);
      }
      if Stranded(DsAfter(cs)) {
        if c.DoSubscribe? {
          assert FailedSince(cs, |p|);
        } else {
          var k: nat :| k < |p| && FailedSince(p, k);
          assert FailedSince(cs, k);
        }
      }
      if k: nat :| k < |cs| && FailedSince(cs, k) {
        assert k < |p| ==> FailedSince(p, k);
      }
    }
  }

  // ----- who is listed then -----

  predicate Listed(m: Machine, id: int) {
    Has(m.subs, Only(id))
  }

  lemma {:induction false} ListedMeans(subs: seq<Subscriber>, id: int)
    ensures Has(subs, Only(id)) <==> exists i :: 0 <= i < |subs| && subs[i].id == id
  {
    if Has(subs, Only(id)) {
      assert subs[First(subs, Only(id))].id == id;
    }
  }

  /** In Released a call changes the list only by adding who subscribes. */
  lemma ListInReleased(m: Machine, c: Call, id: int)
    requires IsDs(m) && m.phase == InReleased
    ensures Listed(Do(m, c), id) <==>
      match c
      case DoSubscribe(s, _) => Listed(m, id) || s.id == id
      case _ => Listed(m, id)
  {
    match c
    case DoSubscribe(s, answer) =>
      AddLists(m, s, id);
      SubscribeLists(m, s, answer);
    case DoUnsubscribe(_, _) =>
    case DoEvent(e, answer) => EventKeepsList(m, e, answer);
    case DoDrop =>
  }

  lemma SubscribeLists(m: Machine, s: Subscriber, answer: Answer)
    requires IsDs(m) && m.phase == InReleased
    ensures SubscribeRsrc(m, s, answer).subs == AddSubscriber(m, s).subs
  {
    SendKeepsPhase(AddSubscriber(m, s), Request, answer);
  }

  lemma EventKeepsList(m: Machine, e: Status, answer: Answer)
    requires IsDs(m) && m.phase == InReleased
    ensures OnRsrcEvent(m, e, answer).subs == m.subs
  {
    EventOnStrands(m.Log(In(e)), e, answer);
    EventOnStrands(m.Log(In(e)).Log(In(Denied)), Denied, answer);
  }

  lemma AddLists(m: Machine, s: Subscriber, id: int)
    ensures Listed(AddSubscriber(m, s), id) <==> Listed(m, id) || s.id == id
  {
    if !Has(m.subs, Only(s.id)) {
      assert ([s.(inactive := false)] + m.subs)[1..] == m.subs;
    }
  }

  /** An unsubscribe would find its subscriber in Released. */
  predicate FoundInReleased(m: Machine, id: int) {
    m.phase == InReleased && Listed(m, id)
  }

  lemma CallFoundInReleased(m: Machine, c: Call, id: int)
    requires IsDs(m)
    ensures FoundInReleased(Do(m, c), id) <==>
      || (FoundInReleased(m, id) && !Recovers(c))
      || (c.DoSubscribe? && c.s.id == id && c.answer != Ok && m.phase == InReleased)
  {
    CallStrandsExactly(m, c);
    ListedMeans(Do(m, c).subs, id);
    if m.phase == InReleased {
      ListInReleased(m, c, id);
      ListedMeans(m.subs, id);
    }
  }

  /** A request for `id` failed in Released, and none has succeeded since. */
  ghost predicate FailedFor(cs: seq<Call>, id: int) {
    exists k: nat :: k < |cs| && FailedSince(cs, k) && cs[k].s.id == id
  }

  /** Over every run: an unsubscribe finds its subscriber in Released exactly if
      that subscriber's own request failed there, with no success since. */
  lemma {:induction false} FoundInReleasedExactly(cs: seq<Call>, id: int)
    ensures FoundInReleased(DsAfter(cs), id) <==> FailedFor(cs, id)
  {
    if cs != [] {
      var p, c := cs[..|cs| - 1], cs[|cs| - 1];
      var m := DsAfter(p);
      assert cs == p + [c];
      FoundInReleasedExactly(p, id);
      AlwaysDs(p);
      DsAfterSnoc(p, c);
      CallFoundInReleased(m, c, id);
      FailedForSnoc(p, c, id);
    }
  }

  lemma FailedForSnoc(cs: seq<Call>, c: Call, id: int)
    ensures FailedFor(cs + [c], id) <==>
      || (FailedFor(cs, id) && !Recovers(c))
      || (c.DoSubscribe? && c.s.id == id && c.answer != Ok && DsAfter(cs).phase == InReleased)
  {
    var cs' := cs + [c];
    FailedSinceSnoc(cs, c, |cs|);
    if k: nat :| k < |cs'| && FailedSince(cs', k) && cs'[k].s.id == id {
      FailedSinceSnoc(cs, c, k);
      assert k < |cs| ==> FailedSince(cs, k) && cs[k] == cs'[k];
    }
    if k: nat :| k < |cs| && FailedSince(cs, k) && cs[k].s.id == id {
      FailedSinceSnoc(cs, c, k);
      assert !Recovers(c) ==> FailedSince(cs', k) && cs'[k] == cs[k];
    }
    if c.DoSubscribe? && c.s.id == id && c.answer != Ok && DsAfter(cs).phase == InReleased {
      assert FailedSince(cs', |cs|) && cs'[|cs|] == c;
    }
  }

  // ----- a RELEASED -----

  lemma {:induction false} MatchedAll(subs: seq<Subscriber>)
    ensures Matched(subs, AllSubs) == subs && Unmatched(subs, AllSubs) == []
  {
    if subs != [] {
      MatchedAll(subs[1..]);
    }
  }

  /** What a RELEASED from the service does to everybody on the list of the
      emergency machine.  Pending, all are denied and leave, where the base
      machine ignores the event; acquired, all are released and leave; while
      releasing, the inactive are released and leave and the others wait for a
      new request; in Released nothing happens to anybody. */
  lemma ReleasedGoesToEverybody(m: Machine, answer: Answer)
    requires IsDs(m)
    ensures var m', before := OnRsrcEvent(m, Released, answer), m.log + [In(Released)];
      match m.phase
      case InPending =>
        && m'.phase == InReleased && m'.subs == [] && m'.log == before + [In(Denied)] + Notices(m.subs, Denied)
        && OnRsrcEvent(m.(ds := false), Released, answer) == m.(ds := false, log := before)
      case InAcquired =>
        m'.phase == InReleased && m'.subs == [] && m'.log == before + Notices(m.subs, Released)
      case InReleasing =>
        && m'.subs == Unmatched(m.subs, InactiveSubs)
        && m'.phase == (if m'.subs == [] then InReleased else InPending)
        && before + Notices(Matched(m.subs, InactiveSubs), Released) <= m'.log
      case InReleased =>
        m' == m.(log := before + [In(Denied)])
  {
    MatchedAll(m.subs);
    if m.phase == InReleasing {
      CloseReleases(m.Log(In(Released)), answer);
    }
  }

  lemma CloseReleases(m: Machine, answer: Answer)
    requires IsDs(m) && m.phase == InReleasing
    ensures var m' := AfterClose(m, Released, answer);
      && m'.subs == Unmatched(m.subs, InactiveSubs)
      && m'.phase == (if m'.subs == [] then InReleased else InPending)
      && m.log + Notices(Matched(m.subs, InactiveSubs), Released) <= m'.log
  {
    var n := NotifySubscribers(m, Notification(InactiveSubs, Released, true));
    NoActiveAfterInactiveLeft(m.subs);
    SendKeepsPhase(n.(phase := InPending), Request, answer);
    SendGrowsLog(n.(phase := InPending), Request, answer);
  }

  lemma SendGrowsLog(m: Machine, a: Action, answer: Answer)
    ensures m.log <= SendRsrcRequest(m, a, answer).0.log
  {
  }
}
