/** What the base machine's notifications mean, by the history alone: whom each
    service event tells what, and whom it leaves alone. */
module AgpsNotices {
  import opened Agps
  import opened AgpsDiscipline
  import opened AgpsLedger

  // ----- where the resource stands -----

  /** Not asked for, or given back; asked for; granted. */
  datatype Standing = Free | Asked | Got

  /** By the history: a grant counts only when the resource was asked for, a denial
      likewise, and a release by the service only when it was granted. */
  function StandingOf(log: seq<Item>): Standing {
    if log == [] then Free
    else
      var was := StandingOf(log[..|log| - 1]);
      match log[|log| - 1]
      case Out(Request) => Asked
      case Out(Release) => Free
      case In(Granted) => if was == Asked then Got else was
      case In(Denied) => if was == Asked then Free else was
      case In(Released) => if was == Got then Free else was
      case _ => was
  }

  /** `e` was the last event, and since then only notices of it have gone out. */
  predicate Announces(log: seq<Item>, e: Status) {
    log != [] &&
    var last := log[|log| - 1];
    last == In(e) || (last.Notified? && last.s == e && Announces(log[..|log| - 1], e))
  }

  /** A grant is told only while the resource is granted.  A denial is told only
      upon a DENIED that ended a request or a release, and a release only upon a
      RELEASED that ended a grant or a release.  The service is asked only for what
      is free, and given back only what is not. */
  predicate ItemOk(before: seq<Item>, i: Item) {
    match i
    case Notified(_, Granted) => StandingOf(before) == Got
    case Notified(_, Denied) => Announces(before, Denied) && StandingOf(before) == Free
    case Notified(_, Released) => Announces(before, Released) && StandingOf(before) == Free
    case Out(Request) => StandingOf(before) == Free
    case Out(Release) => StandingOf(before) != Free
    case _ => true
  }

  ghost predicate Lawful(log: seq<Item>) {
    log == [] || (Lawful(log[..|log| - 1]) && ItemOk(log[..|log| - 1], log[|log| - 1]))
  }

  lemma LawSnoc(log: seq<Item>, i: Item)
    ensures (log + [i])[..|log + [i]| - 1] == log
    ensures Lawful(log + [i]) <==> Lawful(log) && ItemOk(log, i)
    ensures !i.In? && !i.Out? ==> StandingOf(log + [i]) == StandingOf(log)
    ensures Announces(log + [i], Denied) <==> i == In(Denied) || (i.Notified? && i.s == Denied && Announces(log, Denied))
    ensures Announces(log + [i], Released) <==> i == In(Released) || (i.Notified? && i.s == Released && Announces(log, Released))
  {
    assert (log + [i])[..|log + [i]| - 1] == log;
  }

  lemma StandingSnoc(log: seq<Item>, i: Item)
    requires i.In? || i.Out?
    ensures StandingOf(log + [i]) ==
      match i
      case Out(Request) => Asked
      case Out(Release) => Free
      case In(Granted) => if StandingOf(log) == Asked then Got else StandingOf(log)
      case In(Denied) => if StandingOf(log) == Asked then Free else StandingOf(log)
      case In(Released) => if StandingOf(log) == Got then Free else StandingOf(log)
      case _ => StandingOf(log)
  {
    assert (log + [i])[..|log + [i]| - 1] == log;
  }

  /** Notices of `e` may go out. */
  predicate MayTell(log: seq<Item>, e: Status) {
    match e
    case Granted => StandingOf(log) == Got
    case Unsubscribe => true
    case Subscribe => true
    case _ => Announces(log, e) && StandingOf(log) == Free
  }

  lemma {:induction false} NoticesAreLawful(log: seq<Item>, hit: seq<Subscriber>, e: Status)
    requires Lawful(log) && MayTell(log, e)
    ensures Lawful(log + Notices(hit, e)) && StandingOf(log + Notices(hit, e)) == StandingOf(log)
    decreases |hit|
  {
    var tail := Notices(hit, e);
    if hit == [] {
      assert log + tail == log;
    } else {
      LawSnoc(log, tail[0]);
      assert log + tail == (log + [tail[0]]) + tail[1..];
      assert tail[1..] == Notices(hit[1..], e);
      NoticesAreLawful(log + [tail[0]], hit[1..], e);
    }
  }

  lemma {:induction false} DropsAreLawful(log: seq<Item>, subs: seq<Subscriber>)
    requires Lawful(log)
    ensures Lawful(log + Drops(subs)) && StandingOf(log + Drops(subs)) == StandingOf(log)
    decreases |subs|
  {
    var tail := Drops(subs);
    if subs == [] {
      assert log + tail == log;
    } else {
      LawSnoc(log, tail[0]);
      assert log + tail == (log + [tail[0]]) + tail[1..];
      assert tail[1..] == Drops(subs[1..]);
      DropsAreLawful(log + [tail[0]], subs[1..]);
    }
  }

  // ----- the machine keeps to it -----

  function Expected(p: Phase): Standing {
    match p
    case InPending => Asked
    case InAcquired => Got
    case _ => Free
  }

  ghost predicate KeepsLaw(m: Machine) {
    !m.ds && Lawful(m.log) && StandingOf(m.log) == Expected(m.phase)
  }

  lemma NotifyKeepsLaw(m: Machine, n: Notification)
    requires Lawful(m.log) && MayTell(m.log, n.status)
    ensures var m' := NotifySubscribers(m, n); Lawful(m'.log) && StandingOf(m'.log) == StandingOf(m.log)
  {
    NoticesAreLawful(m.log, Matched(m.subs, n.rcver), n.status);
  }

  lemma AddKeepsLaw(m: Machine, s: Subscriber)
    requires KeepsLaw(m)
    ensures KeepsLaw(AddSubscriber(m, s)) && AddSubscriber(m, s).phase == m.phase
  {
    LawSnoc(m.log, Joined(s.id));
  }

  lemma FirstRequestKeepsLaw(m: Machine, s: Subscriber, answer: Answer)
    requires KeepsLaw(m) && InStep(m) && m.phase == InReleased
    ensures KeepsLaw(SubscribeOn(m, s, answer))
  {
    var m' := AddSubscriber(m, s);
    AddKeepsLaw(m, s);
    AddKeepsLog(m, s);
    LawSnoc(m'.log, Out(Request));
    StandingSnoc(m'.log, Out(Request));
  }

  lemma SubscribeKeepsLaw(m: Machine, s: Subscriber, answer: Answer)
    requires KeepsLaw(m) && InStep(m)
    ensures KeepsLaw(SubscribeOn(m, s, answer))
  {
    match m.phase
    case InReleased => FirstRequestKeepsLaw(m, s, answer);
    case InAcquired =>
      LawSnoc(m.log, Notified(s.id, Granted));
      AddKeepsLaw(m.Log(Notified(s.id, Granted)), s);
    case _ => AddKeepsLaw(m, s);
  }

  lemma WithdrawKeepsLaw(m: Machine, i: nat)
    requires KeepsLaw(m) && i < |m.subs|
    ensures KeepsLaw(Withdraw(m, i)) && Withdraw(m, i).phase == m.phase
  {
    NotifyKeepsLaw(m, Notification(Only(m.subs[i].id), Unsubscribe, true));
  }

  lemma ReleaseKeepsLaw(m: Machine, answer: Answer)
    requires KeepsLaw(m) && HoldsResource(m.phase)
    ensures KeepsLaw(ReleaseIfUnused(m, answer))
  {
    LawSnoc(m.log, Out(Release));
    StandingSnoc(m.log, Out(Release));
  }

  lemma UnsubscribeKeepsLaw(m: Machine, i: nat, answer: Answer)
    requires KeepsLaw(m) && i < |m.subs|
    ensures KeepsLaw(UnsubscribeOn(m, i, answer))
  {
    WithdrawKeepsLaw(m, i);
    if HoldsResource(m.phase) {
      ReleaseKeepsLaw(Withdraw(m, i), answer);
    }
    LawSnoc(m.log, Notified(m.subs[i].id, Unsubscribe));
  }

  lemma EventLogged(m: Machine, e: Status)
    requires KeepsLaw(m)
    ensures Lawful(m.Log(In(e)).log) && Announces(m.Log(In(e)).log, e)
  {
    LawSnoc(m.log, In(e));
    assert m.Log(In(e)).log[|m.log|] == In(e);
  }

  lemma CloseKeepsLaw(m: Machine, e: Status, answer: Answer)
    requires KeepsLaw(m) && m.phase == InReleasing && (e == Denied || e == Released)
    ensures KeepsLaw(AfterClose(m.Log(In(e)), e, answer))
  {
    var n := NotifySubscribers(m.Log(In(e)), Notification(InactiveSubs, e, true));
    CloseIsLawful(m, e);
    LawSnoc(n.log, Out(Request));
    StandingSnoc(n.log, Out(Request));
  }

  lemma CloseIsLawful(m: Machine, e: Status)
    requires KeepsLaw(m) && m.phase == InReleasing && (e == Denied || e == Released)
    ensures var n := NotifySubscribers(m.Log(In(e)), Notification(InactiveSubs, e, true));
      !n.ds && Lawful(n.log) && StandingOf(n.log) == Free
  {
    EventLogged(m, e);
    StandingSnoc(m.log, In(e));
    NotifyKeepsLaw(m.Log(In(e)), Notification(InactiveSubs, e, true));
  }

  lemma EventKeepsLaw(m: Machine, e: Status, answer: Answer)
    requires KeepsLaw(m)
    ensures KeepsLaw(OnRsrcEvent(m, e, answer))
  {
    if e != Subscribe && e != Unsubscribe {
      var l := m.Log(In(e));
      EventLogged(m, e);
      StandingSnoc(m.log, In(e));
      match (m.phase, e)
      case (InPending, Granted) => NotifyKeepsLaw(l.(phase := InAcquired), Notification(ActiveSubs, e, false));
      case (InPending, Denied) => NotifyKeepsLaw(l.(phase := InReleased), Notification(AllSubs, e, true));
      case (InAcquired, Released) => NotifyKeepsLaw(l.(phase := InReleased), Notification(AllSubs, e, true));
      case (InReleasing, Denied) => CloseKeepsLaw(m, e, answer);
      case (InReleasing, Released) => CloseKeepsLaw(m, e, answer);
      case _ =>
    }
  }

  lemma DoKeepsLaw(m: Machine, c: Call)
    requires KeepsLaw(m) && InStep(m)
    ensures KeepsLaw(Do(m, c))
  {
    match c
    case DoSubscribe(s, answer) =>
      LawSnoc(m.log, Refused(s.id));
      SubscribeKeepsLaw(m, s, answer);
    case DoUnsubscribe(id, answer) =>
      if First(m.subs, Only(id)) < |m.subs| {
        UnsubscribeKeepsLaw(m, First(m.subs, Only(id)), answer);
      }
    case DoEvent(e, answer) => EventKeepsLaw(m, e, answer);
    case DoDrop => DropsAreLawful(m.log, m.subs);
  }

  lemma {:induction false} RunKeepsLaw(single: bool, cs: seq<Call>)
    ensures KeepsLaw(Run(NewMachine(single, false), cs))
  {
    if cs != [] {
      RunKeepsLaw(single, cs[..|cs| - 1]);
      RunInStep(single, cs[..|cs| - 1]);
      DoKeepsLaw(Run(NewMachine(single, false), cs[..|cs| - 1]), cs[|cs| - 1]);
    }
  }

  // ----- the laws -----

  lemma {:induction false} LawMeans(log: seq<Item>, j: nat)
    requires Lawful(log) && j < |log|
    ensures ItemOk(log[..j], log[j])
  {
    var n := |log| - 1;
    if j < n {
      LawMeans(log[..n], j);
      assert log[..n][..j] == log[..j];
    }
  }

  /** At every position of every history, restarts included, a notification is told
      as it should be; and the state is the one that the history gives: so every
      other event is ignored. */
  lemma NoticesMeanWhatTheySay(single: bool, cs: seq<Call>)
    ensures var m := Run(NewMachine(single, false), cs);
      && StandingOf(m.log) == Expected(m.phase)
      && forall j: nat :: j < |m.log| ==> ItemOk(m.log[..j], m.log[j])
  {
    var m := Run(NewMachine(single, false), cs);
    RunKeepsLaw(single, cs);
    forall j: nat | j < |m.log| ensures ItemOk(m.log[..j], m.log[j]) {
      LawMeans(m.log, j);
    }
  }

  /** Nothing between `i` and `j` gives the resource back. */
  predicate Unbroken(log: seq<Item>, i: nat, j: nat) {
    forall k :: i <= k < j && k < |log| ==> log[k] != Out(Release) && log[k] != In(Released)
  }

  lemma {:induction false} GrantLasts(log: seq<Item>, i: nat, j: nat)
    requires Lawful(log) && i <= j <= |log| && StandingOf(log[..i]) == Got && Unbroken(log, i, j)
    ensures StandingOf(log[..j]) == Got
  {
    if i < j {
      GrantLasts(log, i, j - 1);
      assert log[..j][..j - 1] == log[..j - 1];
      LawMeans(log, j - 1);
    }
  }

  /** From a grant until the resource is released, nobody leaves but by a notice of
      its own unsubscribe, or by a restart: a late denial throws nobody out. */
  lemma NobodyLeavesWhileGranted(single: bool, cs: seq<Call>, i: nat, j: nat, id: int)
    requires var log := Run(NewMachine(single, false), cs).log;
      i <= j < |log| && StandingOf(log[..i]) == Got && Unbroken(log, i, j) && Leaves(log[j], id)
    ensures var log := Run(NewMachine(single, false), cs).log;
      log[j] == Notified(id, Unsubscribe) || log[j] == Dropped(id)
  {
    var log := Run(NewMachine(single, false), cs).log;
    RunKeepsLaw(single, cs);
    GrantLasts(log, i, j);
    LawMeans(log, j);
  }
}
