/** What each call to the base machine does to each subscriber: whom it tells, who
    stays, and what it asks of the service. */
module AgpsTold {
  import opened Agps
  import opened AgpsDiscipline
  import opened AgpsLedger
  import opened AgpsNotices

  /** The event is news for the subscriber: a grant or a denial of what was asked
      for, the loss of what was granted, or the close that it waits for. */
  predicate Meant(st: Standing, e: Status, s: Subscriber) {
    || (e == Granted && st == Asked && !s.inactive)
    || (e == Denied && st == Asked)
    || (e == Released && st == Got)
    || ((e == Denied || e == Released) && st == Free && s.inactive)
  }

  /** Nobody is listed twice. */
  ghost predicate Unique(subs: seq<Subscriber>) {
    forall id :: Count(subs, id) <= 1
  }

  lemma {:induction false} NoticesTell(hit: seq<Subscriber>, e: Status)
    ensures forall s :: s in hit ==> Notified(s.id, e) in Notices(hit, e)
    ensures forall i :: i in Notices(hit, e) ==> exists s :: s in hit && i == Notified(s.id, e)
  {
    NoticesAre(hit, e);
    var out := Notices(hit, e);
    forall s | s in hit ensures Notified(s.id, e) in out {
      var k :| 0 <= k < |hit| && hit[k] == s;
      assert out[k] == Notified(s.id, e);
    }
    forall i | i in out ensures exists s :: s in hit && i == Notified(s.id, e) {
      var k :| 0 <= k < |out| && out[k] == i;
      assert hit[k] in hit;
    }
  }

  /** Exactly those that the receiver means are told. */
  lemma GroupTells(subs: seq<Subscriber>, r: Receiver, e: Status, s: Subscriber)
    requires Unique(subs) && s in subs
    ensures Notified(s.id, e) in Notices(Matched(subs, r), e) <==> ForMe(r, s)
  {
    var hit := Matched(subs, r);
    NoticesTell(hit, e);
    MatchedIn(subs, r, s);
    if Notified(s.id, e) in Notices(hit, e) {
      var t :| t in hit && Notified(s.id, e) == Notified(t.id, e);
      MatchedIn(subs, r, t);
      OnlyOneOf(subs, s, t);
    }
  }

  lemma GroupTellsNobodyElse(subs: seq<Subscriber>, r: Receiver, e: Status, i: Item)
    requires i in Notices(Matched(subs, r), e)
    ensures exists s :: s in subs && ForMe(r, s) && i == Notified(s.id, e)
  {
    NoticesTell(Matched(subs, r), e);
    var s :| s in Matched(subs, r) && i == Notified(s.id, e);
    MatchedIn(subs, r, s);
  }

  /** The items that a call has added. */
  function Added(m: Machine, m': Machine): seq<Item> {
    if m.log <= m'.log then m'.log[|m.log|..] else []
  }

  /** What an event must have done: who was told, who stays, and nothing besides. */
  ghost predicate Tells(m: Machine, m': Machine, e: Status, st: Standing) {
    var tail := Added(m, m');
    && m.log <= m'.log && tail != [] && tail[0] == In(e)
    && (forall s :: s in m.subs ==> (Notified(s.id, e) in tail <==> Meant(st, e, s)))
    && (forall s :: s in m.subs ==> (s in m'.subs <==> e == Granted || !Meant(st, e, s)))
    && (forall s :: s in m'.subs ==> s in m.subs)
    && (forall i :: i in tail ==> i == In(e) || i == Out(Request) || IsNews(m, i, e, st))
    && (Out(Request) in tail <==> st == Free && e != Granted && m'.subs != [])
    && m'.phase == NextPhase(m, m', e, st)
  }

  /** A grant of what was asked for is acquired; after a denial of it, after the loss
      of what was granted and after a close, whoever is left waits for a new request;
      any other event changes nothing. */
  function NextPhase(m: Machine, m': Machine, e: Status, st: Standing): Phase {
    if e == Granted then if st == Asked then InAcquired else m.phase
    else if st == Free || (st == Asked <==> e == Denied) then if m'.subs == [] then InReleased else InPending
    else m.phase
  }

  ghost predicate IsNews(m: Machine, i: Item, e: Status, st: Standing) {
    exists s :: s in m.subs && Meant(st, e, s) && i == Notified(s.id, e)
  }

  /** An event whose news is for the group `r`. */
  lemma GroupEventTells(m: Machine, m': Machine, e: Status, r: Receiver, st: Standing, request: bool)
    requires Unique(m.subs) && forall s :: s in m.subs ==> (ForMe(r, s) <==> Meant(st, e, s))
    requires m'.subs == if e == Granted then m.subs else Unmatched(m.subs, r)
    requires m'.log == m.log + [In(e)] + Notices(Matched(m.subs, r), e) + if request then [Out(Request)] else []
    requires request <==> st == Free && e != Granted && m'.subs != []
    requires m'.phase == NextPhase(m, m', e, st)
    ensures Tells(m, m', e, st)
  {
    var out := Notices(Matched(m.subs, r), e);
    var tail := [In(e)] + out + if request then [Out(Request)] else [];
    assert m'.log == m.log + tail;
    assert Added(m, m') == tail;
    forall s | s in m.subs
      ensures Notified(s.id, e) in tail <==> Meant(st, e, s)
      ensures s in m'.subs <==> e == Granted || !Meant(st, e, s)
    {
      GroupTells(m.subs, r, e, s);
      MatchedIn(m.subs, r, s);
    }
    forall s | s in m'.subs ensures s in m.subs {
      MatchedIn(m.subs, r, s);
    }
    forall i | i in out ensures IsNews(m, i, e, st) {
      GroupTellsNobodyElse(m.subs, r, e, i);
    }
    assert Out(Request) !in out;
  }

  /** An event that is news for nobody. */
  lemma IgnoredEventTells(m: Machine, e: Status, st: Standing)
    requires forall s :: s in m.subs ==> !Meant(st, e, s)
    requires st == Free && e != Granted ==> m.subs == []
    requires m.phase == NextPhase(m, m, e, st)
    ensures Tells(m, m.Log(In(e)), e, st)
  {
    assert Added(m, m.Log(In(e))) == [In(e)];
  }

  lemma CloseTells(m: Machine, e: Status, answer: Answer)
    requires InStep(m) && KeepsLaw(m) && Unique(m.subs)
    requires m.phase == InReleasing && (e == Denied || e == Released)
    ensures Tells(m, AfterClose(m.Log(In(e)), e, answer), e, Free)
  {
    CloseLog(m, e, answer);
    GroupEventTells(m, AfterClose(m.Log(In(e)), e, answer), e, InactiveSubs, Free, Unmatched(m.subs, InactiveSubs) != []);
  }

  lemma CloseLog(m: Machine, e: Status, answer: Answer)
    requires !m.ds
    ensures var m', left := AfterClose(m.Log(In(e)), e, answer), Unmatched(m.subs, InactiveSubs);
      && m'.subs == left && m'.phase == (if left == [] then InReleased else InPending)
      && m'.log == m.log + [In(e)] + Notices(Matched(m.subs, InactiveSubs), e) + if left != [] then [Out(Request)] else []
  {
    var n := NotifySubscribers(m.Log(In(e)), Notification(InactiveSubs, e, true));
    NoActiveAfterInactiveLeft(m.subs);
    assert Has(n.subs, ActiveSubs) <==> n.subs != [];
    assert n.log + [] == n.log;
  }

  lemma EventTells(m: Machine, e: Status, answer: Answer)
    requires InStep(m) && KeepsLaw(m) && Unique(m.subs) && e != Subscribe && e != Unsubscribe
    ensures Tells(m, OnRsrcEvent(m, e, answer), e, StandingOf(m.log))
  {
    var m', st := OnRsrcEvent(m, e, answer), StandingOf(m.log);
    assert m.log + [In(e)] + Notices(Matched(m.subs, AllSubs), e) + [] == m.log + [In(e)] + Notices(Matched(m.subs, AllSubs), e);
    assert m.log + [In(e)] + Notices(Matched(m.subs, ActiveSubs), e) + []
        == m.log + [In(e)] + Notices(Matched(m.subs, ActiveSubs), e);
    UnmatchedAll(m.subs);
    match (m.phase, e)
    case (InPending, Granted) => GroupEventTells(m, m', e, ActiveSubs, st, false);
    case (InPending, Denied) => GroupEventTells(m, m', e, AllSubs, st, false);
    case (InAcquired, Released) => GroupEventTells(m, m', e, AllSubs, st, false);
    case (InReleasing, Denied) => CloseTells(m, e, answer);
    case (InReleasing, Released) => CloseTells(m, e, answer);
    case _ => IgnoredEventTells(m, e, st);
  }

  lemma RunIsUnique(single: bool, cs: seq<Call>)
    ensures Unique(Run(NewMachine(single, false), cs).subs)
  {
    forall id ensures Count(Run(NewMachine(single, false), cs).subs, id) <= 1 {
      EveryDepartureIsNotifiedOnce(single, cs, id);
    }
  }

  /** Over every run, by the history: a service event tells exactly those for whom
      it is news, once it is logged, and tells them exactly that event; by a denial
      or a release they leave, and nobody else does; and the service is asked again
      exactly if a close leaves somebody behind. */
  lemma EventTellsExactly(single: bool, cs: seq<Call>, e: Status, answer: Answer)
    requires e != Subscribe && e != Unsubscribe
    ensures var m := Run(NewMachine(single, false), cs);
      Tells(m, Do(m, DoEvent(e, answer)), e, StandingOf(m.log))
  {
    RunInStep(single, cs);
    RunKeepsLaw(single, cs);
    RunIsUnique(single, cs);
    EventTells(Run(NewMachine(single, false), cs), e, answer);
  }

  // ----- subscribing -----

  ghost predicate Lists(m: Machine, id: int) {
    exists s :: s in m.subs && s.id == id
  }

  /** What a subscribe must have done. */
  ghost predicate Enters(m: Machine, m': Machine, s: Subscriber) {
    var tail := Added(m, m');
    && m.log <= m'.log && Lists(m', s.id)
    && m'.subs == (if Lists(m, s.id) then [] else [s.(inactive := false)]) + m.subs
    && m'.phase == (if m.phase == InReleased then InPending else m.phase)
    && (Notified(s.id, Granted) in tail <==> StandingOf(m.log) == Got)
    && (Joined(s.id) in tail <==> !Lists(m, s.id))
    && (Out(Request) in tail <==> m.phase == InReleased)
    && (forall i :: i in tail ==> i == Notified(s.id, Granted) || i == Joined(s.id) || i == Out(Request))
  }

  lemma ListsIsHas(m: Machine, id: int)
    ensures Lists(m, id) <==> Has(m.subs, Only(id))
  {
    HasMeans(m.subs, Only(id));
  }

  lemma AddedIs(m: Machine, m': Machine, tail: seq<Item>)
    requires m'.log == m.log + tail
    ensures m.log <= m'.log && Added(m, m') == tail
  {
  }

  lemma ListJoins(m: Machine, s: Subscriber)
    ensures var m' := AddSubscriber(m, s);
      && Lists(m', s.id) && m'.phase == m.phase
      && m'.subs == (if Lists(m, s.id) then [] else [s.(inactive := false)]) + m.subs
      && m'.log == m.log + if Lists(m, s.id) then [] else [Joined(s.id)]
  {
    var m' := AddSubscriber(m, s);
    ListsIsHas(m, s.id);
    if Has(m.subs, Only(s.id)) {
      assert m.log + [] == m.log && [] + m.subs == m.subs;
    } else {
      assert m'.subs[0] in m'.subs;
    }
  }

  lemma FirstJoins(m: Machine, s: Subscriber, answer: Answer)
    requires !m.ds && m.phase == InReleased && m.subs == [] && StandingOf(m.log) == Free
    ensures Enters(m, SubscribeOn(m, s, answer), s)
  {
    FirstRequest(m, s, answer);
    ListJoins(m, s);
    AddedIs(m, SubscribeOn(m, s, answer), [Joined(s.id), Out(Request)]);
  }

  lemma FirstRequest(m: Machine, s: Subscriber, answer: Answer)
    requires !m.ds && m.phase == InReleased && m.subs == []
    ensures var m' := SubscribeOn(m, s, answer);
      m'.phase == InPending && m'.subs == AddSubscriber(m, s).subs && m'.log == m.log + [Joined(s.id), Out(Request)]
    ensures !Lists(m, s.id)
  {
    AddKeepsLog(m, s);
    assert m.log + [Joined(s.id)] + [Out(Request)] == m.log + [Joined(s.id), Out(Request)];
  }

  lemma GrantedJoins(m: Machine, s: Subscriber, answer: Answer)
    requires m.phase == InAcquired && StandingOf(m.log) == Got
    ensures Enters(m, SubscribeOn(m, s, answer), s)
  {
    var l := m.Log(Notified(s.id, Granted));
    ListJoins(l, s);
    assert Lists(l, s.id) == Lists(m, s.id);
    AddedIs(m, SubscribeOn(m, s, answer), [Notified(s.id, Granted)] + if Lists(m, s.id) then [] else [Joined(s.id)]);
  }

  lemma SubscribeJoins(m: Machine, s: Subscriber, answer: Answer)
    requires InStep(m) && KeepsLaw(m)
    ensures Enters(m, SubscribeOn(m, s, answer), s)
  {
    match m.phase
    case InReleased => FirstJoins(m, s, answer);
    case InAcquired => GrantedJoins(m, s, answer);
    case _ =>
      ListJoins(m, s);
      AddedIs(m, SubscribeOn(m, s, answer), if Lists(m, s.id) then [] else [Joined(s.id)]);
  }

  /** Over every run: a subscribe is refused exactly by a machine for a single
      subscriber that has one; otherwise the subscriber is listed from then on, is
      told of a grant exactly if the resource is granted, and nothing happens to
      anybody else. */
  lemma SubscribeJoinsExactly(single: bool, cs: seq<Call>, s: Subscriber, answer: Answer)
    ensures var m := Run(NewMachine(single, false), cs);
      var m' := Do(m, DoSubscribe(s, answer));
      if single && m.subs != [] then m' == m.(log := m.log + [Refused(s.id)]) else Enters(m, m', s)
  {
    RunInStep(single, cs);
    RunKeepsLaw(single, cs);
    RunKeepsSingle(single, cs);
    SubscribeJoins(Run(NewMachine(single, false), cs), s, answer);
  }

  lemma SendKeepsSingle(m: Machine, a: Action, answer: Answer)
    ensures SendRsrcRequest(m, a, answer).0.single == m.single
  {
  }

  lemma SubscribeKeepsSingle(m: Machine, s: Subscriber, answer: Answer)
    ensures SubscribeOn(m, s, answer).single == m.single
  {
    SendKeepsSingle(AddSubscriber(m, s), Request, answer);
  }

  lemma UnsubscribeKeepsSingle(m: Machine, i: nat, answer: Answer)
    requires i < |m.subs|
    ensures UnsubscribeOn(m, i, answer).single == m.single
  {
    WithdrawKeepsSingle(m, i);
    ReleaseKeepsSingle(Withdraw(m, i), answer);
  }

  lemma WithdrawKeepsSingle(m: Machine, i: nat)
    requires i < |m.subs|
    ensures Withdraw(m, i).single == m.single
  {
  }

  lemma ReleaseKeepsSingle(m: Machine, answer: Answer)
    ensures ReleaseIfUnused(m, answer).single == m.single
  {
    SendKeepsSingle(m.(phase := InReleased), Release, answer);
    SendKeepsSingle(m.(phase := InReleasing), Release, answer);
  }

  lemma EventKeepsSingle(m: Machine, e: Status, answer: Answer)
    ensures EventOn(m, e, answer).single == m.single
  {
    var n := NotifySubscribers(m, Notification(InactiveSubs, e, true));
    SendKeepsSingle(n.(phase := InPending), Request, answer);
  }

  lemma DoKeepsSingle(m: Machine, c: Call)
    ensures Do(m, c).single == m.single
  {
    match c
    case DoSubscribe(s, answer) => SubscribeKeepsSingle(m, s, answer);
    case DoUnsubscribe(id, answer) =>
      if First(m.subs, Only(id)) < |m.subs| {
        UnsubscribeKeepsSingle(m, First(m.subs, Only(id)), answer);
      }
    case DoEvent(e, answer) =>
      var m1 := EventOn(m.Log(In(e)), e, answer);
      EventKeepsSingle(m.Log(In(e)), e, answer);
      EventKeepsSingle(m1.Log(In(Denied)), Denied, answer);
    case DoDrop =>
  }

  lemma {:induction false} RunKeepsSingle(single: bool, cs: seq<Call>)
    ensures Run(NewMachine(single, false), cs).single == single
  {
    if cs != [] {
      RunKeepsSingle(single, cs[..|cs| - 1]);
      DoKeepsSingle(Run(NewMachine(single, false), cs[..|cs| - 1]), cs[|cs| - 1]);
    }
  }

  // ----- unsubscribing -----

  /** What an unsubscribe of the listed `x` must have done. */
  ghost predicate Leaving(m: Machine, m': Machine, x: Subscriber) {
    var tail := Added(m, m');
    && m.log <= m'.log
    && (forall y: Subscriber :: y.id != x.id ==> (y in m'.subs <==> y in m.subs))
    && (forall y :: y in m'.subs && y.id == x.id ==> x.waits && y == x.(inactive := true))
    && (x.waits ==> x.(inactive := true) in m'.subs)
    && (Notified(x.id, Unsubscribe) in tail <==> !x.waits)
    && (Out(Release) in tail <==> StandingOf(m.log) != Free && forall y :: y in m'.subs ==> y.inactive)
    && m'.phase == (if m'.subs == [] then InReleased else if Out(Release) in tail then InReleasing else m.phase)
    && (forall i :: i in tail ==> i == Notified(x.id, Unsubscribe) || i == Out(Release))
  }

  lemma WithdrawnOnly(m: Machine, i: nat)
    requires !m.ds && Unique(m.subs) && i < |m.subs|
    ensures var x, w := m.subs[i], Withdraw(m, i);
      && (forall y: Subscriber :: y.id != x.id ==> (y in w.subs <==> y in m.subs))
      && (forall y :: y in w.subs && y.id == x.id ==> x.waits && y == x.(inactive := true))
      && (x.waits ==> x.(inactive := true) in w.subs)
      && w.phase == m.phase && w.ds == m.ds
  {
    var x, w := m.subs[i], Withdraw(m, i);
    if x.waits {
      var x' := x.(inactive := true);
      assert w.subs[i] == x';
      forall y: Subscriber ensures y.id != x.id ==> (y in w.subs <==> y in m.subs) {
        if y in m.subs && y.id != x.id {
          var k :| 0 <= k < |m.subs| && m.subs[k] == y;
          assert w.subs[k] == y;
        }
      }
      forall y | y in w.subs && y.id == x.id ensures y == x' {
        CountUpdate(m.subs, i, x', x.id);
        assert Count(m.subs, x.id) <= 1;
        OnlyOneOf(w.subs, y, x');
      }
    } else {
      forall y: Subscriber ensures y in w.subs <==> y in m.subs && y.id != x.id {
        MatchedIn(m.subs, Only(x.id), y);
      }
    }
  }

  lemma WithdrawnNotice(m: Machine, i: nat)
    requires !m.ds && Unique(m.subs) && i < |m.subs|
    ensures var x := m.subs[i];
      Withdraw(m, i).log == m.log + if x.waits then [] else [Notified(x.id, Unsubscribe)]
  {
    var x := m.subs[i];
    if x.waits {
      assert m.log + [] == m.log;
    } else {
      OnlyMatch(m.subs, x);
      NoticesAre([x], Unsubscribe);
      assert Notices([x], Unsubscribe) == [Notified(x.id, Unsubscribe)];
    }
  }

  /** Of one that is listed once, the match is that one. */
  lemma {:induction false} OnlyMatch(subs: seq<Subscriber>, x: Subscriber)
    requires x in subs && Count(subs, x.id) <= 1
    ensures Matched(subs, Only(x.id)) == [x]
  {
    if subs[0].id == x.id {
      NobodyMatches(subs[1..], x.id);
      CountIn(subs[1..], x.id);
      assert subs[0] == x;
    } else {
      assert x in subs[1..];
      OnlyMatch(subs[1..], x);
    }
  }

  lemma {:induction false} NobodyMatches(subs: seq<Subscriber>, id: int)
    requires Count(subs, id) == 0
    ensures Matched(subs, Only(id)) == []
  {
    if subs != [] {
      NobodyMatches(subs[1..], id);
    }
  }

  lemma AllInactive(m: Machine)
    ensures !Has(m.subs, ActiveSubs) <==> forall y :: y in m.subs ==> y.inactive
  {
    HasMeans(m.subs, ActiveSubs);
  }

  lemma UnsubscribeLeaves(m: Machine, i: nat, answer: Answer)
    requires InStep(m) && KeepsLaw(m) && Unique(m.subs) && i < |m.subs|
    ensures Leaving(m, UnsubscribeOn(m, i, answer), m.subs[i])
  {
    var x, w, m' := m.subs[i], Withdraw(m, i), UnsubscribeOn(m, i, answer);
    var release := StandingOf(m.log) != Free && !Has(w.subs, ActiveSubs);
    var tail := OneOrTwo(Notified(x.id, Unsubscribe), !x.waits, Out(Release), release);
    WithdrawnOnly(m, i);
    AllInactive(w);
    OneOrTwoHolds(Notified(x.id, Unsubscribe), !x.waits, Out(Release), release);
    UnsubscribedLog(m, i, answer);
    AddedIs(m, m', tail);
  }

  function OneOrTwo(i: Item, first: bool, j: Item, second: bool): seq<Item> {
    (if first then [i] else []) + if second then [j] else []
  }

  lemma OneOrTwoHolds(i: Item, first: bool, j: Item, second: bool)
    requires i != j
    ensures var tail := OneOrTwo(i, first, j, second);
      (i in tail <==> first) && (j in tail <==> second) && forall k :: k in tail ==> k == i || k == j
  {
  }

  lemma UnsubscribedLog(m: Machine, i: nat, answer: Answer)
    requires InStep(m) && KeepsLaw(m) && Unique(m.subs) && i < |m.subs|
    ensures var x, w, m' := m.subs[i], Withdraw(m, i), UnsubscribeOn(m, i, answer);
      && m'.subs == w.subs
      && m'.phase == (if w.subs == [] then InReleased
                      else if StandingOf(m.log) != Free && !Has(w.subs, ActiveSubs) then InReleasing else m.phase)
      && m'.log == m.log + OneOrTwo(Notified(x.id, Unsubscribe), !x.waits,
                                    Out(Release), StandingOf(m.log) != Free && !Has(w.subs, ActiveSubs))
  {
    WithdrawnNotice(m, i);
    SettledUnsubscribe(m, i, answer);
  }

  lemma SettledUnsubscribe(m: Machine, i: nat, answer: Answer)
    requires InStep(m) && KeepsLaw(m) && i < |m.subs|
    ensures var w, m' := Withdraw(m, i), UnsubscribeOn(m, i, answer);
      && m'.subs == w.subs
      && m'.phase == (if w.subs == [] then InReleased
                      else if StandingOf(m.log) != Free && !Has(w.subs, ActiveSubs) then InReleasing else m.phase)
      && m'.log == w.log + if StandingOf(m.log) != Free && !Has(w.subs, ActiveSubs) then [Out(Release)] else []
  {
    var w := Withdraw(m, i);
    WithdrawKeepsLog(m, i);
    assert w.log + [] == w.log;
  }

  /** Over every run: an unsubscribe of somebody who is not listed does nothing.  Of
      a listed one it leaves nobody active: who waits for the close stays, inactive
      and untold, anybody else is told and leaves; nothing happens to the others; and
      the service is released exactly if the resource is asked for or granted and
      nobody active is left. */
  lemma UnsubscribeLeavesExactly(single: bool, cs: seq<Call>, id: int, answer: Answer)
    ensures var m := Run(NewMachine(single, false), cs);
      var m' := Do(m, DoUnsubscribe(id, answer));
      && (!Lists(m, id) ==> m' == m)
      && forall x :: x in m.subs && x.id == id ==> Leaving(m, m', x)
  {
    var m := Run(NewMachine(single, false), cs);
    RunInStep(single, cs);
    RunKeepsLaw(single, cs);
    RunIsUnique(single, cs);
    ListsIsHas(m, id);
    if Has(m.subs, Only(id)) {
      var i := First(m.subs, Only(id));
      UnsubscribeLeaves(m, i, answer);
      forall x | x in m.subs && x.id == id ensures x == m.subs[i] {
        OnlyOneOf(m.subs, x, m.subs[i]);
      }
    }
  }

  // ----- a restart -----

  /** Over every run: a restart drops everybody, once each and without a word, and
      leaves the state. */
  lemma RestartDropsAll(single: bool, cs: seq<Call>)
    ensures var m := Run(NewMachine(single, false), cs);
      var m' := Do(m, DoDrop);
      && m'.subs == [] && m'.phase == m.phase && m.log <= m'.log && |Added(m, m')| == |m.subs|
      && forall k :: 0 <= k < |m.subs| ==> Added(m, m')[k] == Dropped(m.subs[k].id)
  {
    var m := Run(NewMachine(single, false), cs);
    RunInStep(single, cs);
    DropsAre(m.subs);
    AddedIs(m, Do(m, DoDrop), Drops(m.subs));
  }
}
