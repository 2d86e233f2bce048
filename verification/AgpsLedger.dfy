/** The base machine's dealings with its subscribers, over every run. */
module AgpsLedger {
  import opened Agps
  import opened AgpsDiscipline

  // ----- counting -----

  function Count(subs: seq<Subscriber>, id: int): nat {
    if subs == [] then 0 else (if subs[0].id == id then 1 else 0) + Count(subs[1..], id)
  }

  predicate Joins(i: Item, id: int) {
    i == Joined(id)
  }

  /** A last notification, or a silent drop at an engine restart. */
  predicate Leaves(i: Item, id: int) {
    || i == Notified(id, Unsubscribe) || i == Notified(id, Denied) || i == Notified(id, Released)
    || i == Dropped(id)
  }

  predicate IsLast(s: Status) {
    s == Unsubscribe || s == Denied || s == Released
  }

  /** How often `id` joined in `log`, less how often it left. */
  function Balance(log: seq<Item>, id: int): int {
    if log == [] then 0
    else
      var last := log[|log| - 1];
      Balance(log[..|log| - 1], id)
        + (if Joins(last, id) then 1 else 0) - (if Leaves(last, id) then 1 else 0)
  }

  /** `id` was granted the resource and has not left since; a subscriber that comes
      in Acquired is granted it just before it joins. */
  predicate HasGrant(log: seq<Item>, id: int) {
    log != [] &&
    var last := log[|log| - 1];
    last == Notified(id, Granted) || (!Leaves(last, id) && HasGrant(log[..|log| - 1], id))
  }

  lemma LedgerSnoc(log: seq<Item>, i: Item, id: int)
    ensures Balance(log + [i], id)
         == Balance(log, id) + (if Joins(i, id) then 1 else 0) - (if Leaves(i, id) then 1 else 0)
    ensures HasGrant(log + [i], id) <==> i == Notified(id, Granted) || (!Leaves(i, id) && HasGrant(log, id))
  {
    assert (log + [i])[..|log + [i]| - 1] == log;
  }

  /** The effect of a batch of last notifications, or of a drop. */
  lemma {:induction false} PartingTail(log: seq<Item>, hit: seq<Subscriber>, tail: seq<Item>, id: int)
    requires |tail| == |hit|
    requires forall k :: 0 <= k < |hit| ==> Leaves(tail[k], hit[k].id) && !tail[k].Joined?
    ensures Balance(log + tail, id) == Balance(log, id) - Count(hit, id)
    ensures Count(hit, id) == 0 ==> HasGrant(log + tail, id) == HasGrant(log, id)
    decreases |hit|
  {
    if hit == [] {
      assert log + tail == log;
    } else {
      LedgerSnoc(log, tail[0], id);
      assert log + tail == (log + [tail[0]]) + tail[1..];
      PartingTail(log + [tail[0]], hit[1..], tail[1..], id);
    }
  }

  lemma {:induction false} GrantTail(log: seq<Item>, hit: seq<Subscriber>, id: int)
    ensures Balance(log + Notices(hit, Granted), id) == Balance(log, id)
    ensures HasGrant(log + Notices(hit, Granted), id) <==> HasGrant(log, id) || Count(hit, id) > 0
    decreases |hit|
  {
    var tail := Notices(hit, Granted);
    if hit == [] {
      assert log + tail == log;
    } else {
      LedgerSnoc(log, tail[0], id);
      assert log + tail == (log + [tail[0]]) + tail[1..];
      assert tail[1..] == Notices(hit[1..], Granted);
      GrantTail(log + [tail[0]], hit[1..], id);
    }
  }

  lemma {:induction false} NoticesAre(hit: seq<Subscriber>, s: Status)
    ensures |Notices(hit, s)| == |hit|
    ensures forall k :: 0 <= k < |hit| ==> Notices(hit, s)[k] == Notified(hit[k].id, s)
  {
    if hit != [] {
      NoticesAre(hit[1..], s);
    }
  }

  lemma {:induction false} DropsAre(subs: seq<Subscriber>)
    ensures |Drops(subs)| == |subs|
    ensures forall k :: 0 <= k < |subs| ==> Drops(subs)[k] == Dropped(subs[k].id)
  {
    if subs != [] {
      DropsAre(subs[1..]);
    }
  }

  lemma {:induction false} CountSplits(subs: seq<Subscriber>, r: Receiver, id: int)
    ensures Count(Matched(subs, r), id) + Count(Unmatched(subs, r), id) == Count(subs, id)
    ensures r == Only(id) ==> Count(Unmatched(subs, r), id) == 0
    ensures r.Only? && r.id != id ==> Count(Matched(subs, r), id) == 0
  {
    if subs != [] {
      CountSplits(subs[1..], r, id);
      if ForMe(r, subs[0]) {
        assert Matched(subs, r) == [subs[0]] + Matched(subs[1..], r);
        assert Unmatched(subs, r) == Unmatched(subs[1..], r);
      } else {
        assert Unmatched(subs, r) == [subs[0]] + Unmatched(subs[1..], r);
        assert Matched(subs, r) == Matched(subs[1..], r);
      }
    }
  }

  lemma {:induction false} CountIn(subs: seq<Subscriber>, id: int)
    ensures Count(subs, id) > 0 <==> exists k :: 0 <= k < |subs| && subs[k].id == id
  {
    if subs != [] {
      CountIn(subs[1..], id);
      if Count(subs[1..], id) > 0 {
        var k :| 0 <= k < |subs[1..]| && subs[1..][k].id == id;
        assert subs[k + 1].id == id;
      }
    }
  }

  lemma {:induction false} CountUpdate(subs: seq<Subscriber>, i: nat, s: Subscriber, id: int)
    requires i < |subs| && s.id == subs[i].id
    ensures Count(subs[i := s], id) == Count(subs, id)
  {
    if i > 0 {
      assert subs[i := s][1..] == subs[1..][i - 1 := s];
      CountUpdate(subs[1..], i - 1, s, id);
    } else {
      assert subs[i := s][1..] == subs[1..];
    }
  }

  lemma {:induction false} MatchedIn(subs: seq<Subscriber>, r: Receiver, s: Subscriber)
    ensures s in Matched(subs, r) <==> s in subs && ForMe(r, s)
    ensures s in Unmatched(subs, r) <==> s in subs && !ForMe(r, s)
  {
    if subs != [] {
      MatchedIn(subs[1..], r, s);
    }
  }

  // ----- the books, one subscriber at a time -----

  /** Joins and departures of `id` balance against the list, which holds it at
      most once. */
  ghost predicate BookOk(m: Machine, id: int) {
    Balance(m.log, id) == Count(m.subs, id) <= 1
  }

  /** Deleting with a last notification keeps every book. */
  lemma PartKeepsBook(m: Machine, r: Receiver, s: Status, id: int)
    requires BookOk(m, id) && IsLast(s)
    ensures BookOk(NotifySubscribers(m, Notification(r, s, true)), id)
  {
    var hit := Matched(m.subs, r);
    NoticesAre(hit, s);
    PartingTail(m.log, hit, Notices(hit, s), id);
    CountSplits(m.subs, r, id);
  }

  lemma AddKeepsBook(m: Machine, s: Subscriber, id: int)
    requires BookOk(m, id)
    ensures BookOk(AddSubscriber(m, s), id)
  {
    if !Has(m.subs, Only(s.id)) {
      LedgerSnoc(m.log, Joined(s.id), id);
      CountIn(m.subs, id);
      var added := [s.(inactive := false)] + m.subs;
      assert added[1..] == m.subs;
      if id == s.id {
        assert Count(m.subs, id) == 0 by {
          assert forall k :: 0 <= k < |m.subs| ==> !ForMe(Only(id), m.subs[k]);
        }
      }
    }
  }

  /** Items that are about `id` only as grants, or not at all. */
  lemma SideItemKeepsBook(m: Machine, i: Item, id: int)
    requires BookOk(m, id) && !i.Joined? && !Leaves(i, id)
    ensures BookOk(m.Log(i), id)
  {
    LedgerSnoc(m.log, i, id);
  }

  lemma SendKeepsBook(m: Machine, a: Action, answer: Answer, id: int)
    requires !m.ds && BookOk(m, id)
    ensures BookOk(SendRsrcRequest(m, a, answer).0, id)
  {
    SideItemKeepsBook(m, Out(a), id);
    SideItemKeepsBook(m, HeldBack(a), id);
  }

  lemma AddKeepsMachine(m: Machine, s: Subscriber)
    ensures AddSubscriber(m, s).ds == m.ds
  {
  }

  lemma SubscribeKeepsBook(m: Machine, s: Subscriber, answer: Answer, id: int)
    requires !m.ds && BookOk(m, id)
    ensures BookOk(SubscribeOn(m, s, answer), id)
  {
    match m.phase
    case InReleased =>
      AddKeepsBook(m, s, id);
      AddKeepsMachine(m, s);
      SendKeepsBook(AddSubscriber(m, s), Request, answer, id);
    case InAcquired =>
      SideItemKeepsBook(m, Notified(s.id, Granted), id);
      AddKeepsBook(m.Log(Notified(s.id, Granted)), s, id);
    case _ => AddKeepsBook(m, s, id);
  }

  lemma WithdrawKeepsBook(m: Machine, i: nat, id: int)
    requires !m.ds && BookOk(m, id) && i < |m.subs|
    ensures BookOk(Withdraw(m, i), id)
  {
    CountUpdate(m.subs, i, m.subs[i].(inactive := true), id);
    PartKeepsBook(m, Only(m.subs[i].id), Unsubscribe, id);
  }

  lemma ReleaseKeepsBook(m: Machine, answer: Answer, id: int)
    requires !m.ds && BookOk(m, id)
    ensures BookOk(ReleaseIfUnused(m, answer), id)
  {
    SendKeepsBook(m.(phase := InReleased), Release, answer, id);
    SendKeepsBook(m.(phase := InReleasing), Release, answer, id);
  }

  lemma UnsubscribeKeepsBook(m: Machine, i: nat, answer: Answer, id: int)
    requires !m.ds && m.phase != InReleased && BookOk(m, id) && i < |m.subs|
    ensures BookOk(UnsubscribeOn(m, i, answer), id)
  {
    WithdrawKeepsBook(m, i, id);
    WithdrawKeepsLog(m, i);
    if m.phase != InReleasing {
      ReleaseKeepsBook(Withdraw(m, i), answer, id);
    }
  }

  lemma GrantKeepsBook(m: Machine, r: Receiver, id: int)
    requires BookOk(m, id)
    ensures BookOk(NotifySubscribers(m, Notification(r, Granted, false)), id)
  {
    GrantTail(m.log, Matched(m.subs, r), id);
  }

  lemma CloseKeepsBook(m: Machine, e: Status, answer: Answer, id: int)
    requires !m.ds && IsLast(e) && BookOk(m, id)
    ensures BookOk(AfterClose(m, e, answer), id)
  {
    PartKeepsBook(m, InactiveSubs, e, id);
    var m' := NotifySubscribers(m, Notification(InactiveSubs, e, true));
    SendKeepsBook(m'.(phase := InPending), Request, answer, id);
  }

  lemma EventKeepsBook(m: Machine, e: Status, answer: Answer, id: int)
    requires !m.ds && BookOk(m, id)
    ensures BookOk(OnRsrcEvent(m, e, answer), id)
  {
    var l := m.Log(In(e));
    SideItemKeepsBook(m, In(e), id);
    match (m.phase, e)
    case (InPending, Granted) => GrantKeepsBook(l.(phase := InAcquired), ActiveSubs, id);
    case (InPending, Denied) => PartKeepsBook(l.(phase := InReleased), AllSubs, e, id);
    case (InAcquired, Released) => PartKeepsBook(l.(phase := InReleased), AllSubs, e, id);
    case (InReleasing, Released) => CloseKeepsBook(l, e, answer, id);
    case (InReleasing, Denied) => CloseKeepsBook(l, e, answer, id);
    case _ =>
  }

  lemma DropKeepsBook(m: Machine, id: int)
    requires BookOk(m, id)
    ensures BookOk(DropAllSubscribers(m), id)
  {
    DropsAre(m.subs);
    PartingTail(m.log, m.subs, Drops(m.subs), id);
  }

  lemma DoKeepsBook(m: Machine, c: Call, id: int)
    requires InStep(m) && BookOk(m, id)
    ensures BookOk(Do(m, c), id)
  {
    match c
    case DoSubscribe(s, answer) =>
      SideItemKeepsBook(m, Refused(s.id), id);
      SubscribeKeepsBook(m, s, answer, id);
    case DoUnsubscribe(u, answer) =>
      if First(m.subs, Only(u)) < |m.subs| {
        UnsubscribeKeepsBook(m, First(m.subs, Only(u)), answer, id);
      }
    case DoEvent(e, answer) => EventKeepsBook(m, e, answer, id);
    case DoDrop => DropKeepsBook(m, id);
  }

  /** Over every run, each subscriber that joined is either still listed, once,
      or has left with exactly one last notification (or a silent drop). */
  lemma {:induction false} EveryDepartureIsNotifiedOnce(single: bool, cs: seq<Call>, id: int)
    ensures BookOk(Run(NewMachine(single, false), cs), id)
  {
    if cs != [] {
      var before := cs[..|cs| - 1];
      EveryDepartureIsNotifiedOnce(single, before, id);
      RunInStep(single, before);
      DoKeepsBook(Run(NewMachine(single, false), before), cs[|cs| - 1], id);
    }
  }

  // ----- grants -----

  /** In the Acquired state every active subscriber has been granted the resource. */
  ghost predicate Granting(m: Machine) {
    m.phase == InAcquired ==>
      forall s :: s in m.subs && !s.inactive ==> HasGrant(m.log, s.id)
  }

  lemma SubscribeGrants(m: Machine, s: Subscriber, answer: Answer)
    requires !m.ds && Granting(m)
    ensures Granting(SubscribeOn(m, s, answer))
  {
    if m.phase == InAcquired {
      var m1 := m.Log(Notified(s.id, Granted));
      var m2 := AddSubscriber(m1, s);
      forall x | x in m2.subs && !x.inactive ensures HasGrant(m2.log, x.id) {
        LedgerSnoc(m.log, Notified(s.id, Granted), x.id);
        LedgerSnoc(m1.log, Joined(s.id), x.id);
      }
    }
  }

  lemma WithdrawGrants(m: Machine, i: nat)
    requires !m.ds && Granting(m) && i < |m.subs|
    ensures Granting(Withdraw(m, i))
  {
    var s, m' := m.subs[i], Withdraw(m, i);
    if m.phase == InAcquired && !s.waits {
      var hit := Matched(m.subs, Only(s.id));
      NoticesAre(hit, Unsubscribe);
      forall x | x in m'.subs && !x.inactive ensures HasGrant(m'.log, x.id) {
        MatchedIn(m.subs, Only(s.id), x);
        CountSplits(m.subs, Only(s.id), x.id);
        PartingTail(m.log, hit, Notices(hit, Unsubscribe), x.id);
      }
    }
  }

  lemma UnsubscribeGrants(m: Machine, i: nat, answer: Answer)
    requires !m.ds && m.phase != InReleased && Granting(m) && i < |m.subs|
    ensures Granting(UnsubscribeOn(m, i, answer))
  {
    WithdrawGrants(m, i);
    WithdrawKeepsLog(m, i);
  }

  lemma GrantedGrants(m: Machine)
    requires m.phase == InPending
    ensures Granting(OnRsrcEvent(m, Granted, Ok))
  {
    var l := m.Log(In(Granted)).(phase := InAcquired);
    var m' := NotifySubscribers(l, Notification(ActiveSubs, Granted, false));
    var hit := Matched(l.subs, ActiveSubs);
    forall x | x in m'.subs && !x.inactive ensures HasGrant(m'.log, x.id) {
      MatchedIn(l.subs, ActiveSubs, x);
      CountIn(hit, x.id);
      GrantTail(l.log, hit, x.id);
    }
  }

  lemma EventGrants(m: Machine, e: Status, answer: Answer)
    requires !m.ds && Granting(m)
    ensures Granting(OnRsrcEvent(m, e, answer))
  {
    if m.phase == InPending && e == Granted {
      GrantedGrants(m);
    } else if m.phase == InAcquired {
      forall x | x in m.subs && !x.inactive && e != Subscribe && e != Unsubscribe
        ensures HasGrant(m.Log(In(e)).log, x.id)
      {
        LedgerSnoc(m.log, In(e), x.id);
      }
    }
  }

  lemma RefusalGrants(m: Machine, id: int)
    requires Granting(m)
    ensures Granting(m.Log(Refused(id)))
  {
    forall x | m.phase == InAcquired && x in m.subs && !x.inactive ensures HasGrant(m.Log(Refused(id)).log, x.id) {
      LedgerSnoc(m.log, Refused(id), x.id);
    }
  }

  lemma {:induction false} AcquiredMeansGranted(single: bool, cs: seq<Call>)
    ensures Granting(Run(NewMachine(single, false), cs))
  {
    if cs != [] {
      var before := cs[..|cs| - 1];
      var m := Run(NewMachine(single, false), before);
      AcquiredMeansGranted(single, before);
      RunInStep(single, before);
      match cs[|cs| - 1]
      case DoSubscribe(s, answer) =>
        RefusalGrants(m, s.id);
        SubscribeGrants(m, s, answer);
      case DoUnsubscribe(u, answer) =>
        if First(m.subs, Only(u)) < |m.subs| {
          UnsubscribeGrants(m, First(m.subs, Only(u)), answer);
        }
      case DoEvent(e, answer) => EventGrants(m, e, answer);
      case DoDrop =>
    }
  }

  // ----- who keeps each state going, in runs without engine restarts -----

  ghost predicate Peopled(m: Machine) {
    && (HoldsResource(m.phase) ==> Has(m.subs, ActiveSubs))
    && (m.phase == InReleasing ==> Has(m.subs, InactiveSubs))
    && forall s :: s in m.subs && s.inactive ==> s.waits
  }

  lemma HasMeans(subs: seq<Subscriber>, r: Receiver)
    ensures Has(subs, r) <==> exists s :: s in subs && ForMe(r, s)
  {
    if Has(subs, r) {
      assert subs[First(subs, r)] in subs;
    }
  }

  lemma AddPeoples(m: Machine, s: Subscriber)
    requires Peopled(m)
    ensures Peopled(AddSubscriber(m, s))
    ensures m.subs == [] ==> Has(AddSubscriber(m, s).subs, ActiveSubs)
  {
    var m' := AddSubscriber(m, s);
    forall r ensures Has(m.subs, r) ==> Has(m'.subs, r) {
      HasMeans(m.subs, r);
      HasMeans(m'.subs, r);
    }
    HasMeans(m'.subs, ActiveSubs);
    if m.subs == [] {
      assert m'.subs[0] in m'.subs;
    }
  }

  lemma WithdrawPeoples(m: Machine, i: nat)
    requires Peopled(m) && i < |m.subs| && BookOk(m, m.subs[i].id)
    ensures var m' := Withdraw(m, i);
      && (m.phase == InReleasing ==> Has(m'.subs, InactiveSubs))
      && forall s :: s in m'.subs && s.inactive ==> s.waits
  {
    var s, m' := m.subs[i], Withdraw(m, i);
    HasMeans(m.subs, InactiveSubs);
    HasMeans(m'.subs, InactiveSubs);
    if s.waits {
      assert m'.subs[i] in m'.subs;
    } else {
      forall x ensures x in m'.subs <==> x in m.subs && x.id != s.id {
        MatchedIn(m.subs, Only(s.id), x);
      }
      if m.phase == InReleasing {
        var x :| x in m.subs && x.inactive;
        OnlyOneOf(m.subs, s, x);
      }
    }
  }

  /** A list that holds an ID at most once holds one subscriber with that ID. */
  lemma {:induction false} OnlyOneOf(subs: seq<Subscriber>, a: Subscriber, b: Subscriber)
    requires a in subs && b in subs && a.id == b.id ==> Count(subs, a.id) <= 1
    ensures a in subs && b in subs && a.id == b.id ==> a == b
  {
    if subs != [] {
      CountIn(subs[1..], a.id);
      if a in subs[1..] && b in subs[1..] {
        OnlyOneOf(subs[1..], a, b);
      }
    }
  }

  lemma ReleasePeoples(m: Machine, answer: Answer)
    requires !m.ds && HoldsResource(m.phase) && forall s :: s in m.subs && s.inactive ==> s.waits
    ensures Peopled(ReleaseIfUnused(m, answer))
  {
    if m.subs != [] && !Has(m.subs, ActiveSubs) {
      HasMeans(m.subs, ActiveSubs);
      HasMeans(m.subs, InactiveSubs);
      assert m.subs[0] in m.subs;
    }
  }

  lemma ClosePeoples(m: Machine, e: Status, answer: Answer)
    requires !m.ds && Peopled(m)
    ensures Peopled(AfterClose(m, e, answer))
  {
    var m' := NotifySubscribers(m, Notification(InactiveSubs, e, true));
    forall x | x in m'.subs ensures x in m.subs {
      MatchedIn(m.subs, InactiveSubs, x);
    }
  }

  lemma EventPeoples(m: Machine, e: Status, answer: Answer)
    requires !m.ds && Peopled(m)
    ensures Peopled(OnRsrcEvent(m, e, answer))
  {
    UnmatchedAll(m.subs);
    ClosePeoples(m.Log(In(e)), e, answer);
  }

  lemma DoPeoples(m: Machine, c: Call)
    requires InStep(m) && Peopled(m) && !c.DoDrop? && forall id :: BookOk(m, id)
    ensures Peopled(Do(m, c))
  {
    match c
    case DoSubscribe(s, answer) =>
      AddPeoples(m, s);
      AddPeoples(m.Log(Notified(s.id, Granted)), s);
    case DoUnsubscribe(id, answer) =>
      var i := First(m.subs, Only(id));
      if i < |m.subs| {
        WithdrawPeoples(m, i);
        WithdrawKeepsLog(m, i);
        if HoldsResource(m.phase) {
          ReleasePeoples(Withdraw(m, i), answer);
        }
      }
    case DoEvent(e, answer) => EventPeoples(m, e, answer);
  }

  /** Without engine restarts, Pending and Acquired always have an active
      subscriber that wants the resource, and Releasing an inactive one that
      waits for the close. */
  lemma {:induction false} StatesAreWanted(single: bool, cs: seq<Call>)
    requires forall i :: 0 <= i < |cs| ==> !cs[i].DoDrop?
    ensures Peopled(Run(NewMachine(single, false), cs))
  {
    if cs != [] {
      var before := cs[..|cs| - 1];
      StatesAreWanted(single, before);
      RunInStep(single, before);
      forall id ensures BookOk(Run(NewMachine(single, false), before), id) {
        EveryDepartureIsNotifiedOnce(single, before, id);
      }
      DoPeoples(Run(NewMachine(single, false), before), cs[|cs| - 1]);
    }
  }
}
