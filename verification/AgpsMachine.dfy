/** The AGPS state machine as an object: its subscribers are objects on a linked
    list, and its methods are proved to make the transitions of the machine. */
module AgpsMachines {
  import opened Wrappers
  import opened Agps
  import L = LinkedLists

  /** Nobody before `i` is meant, so the first match and the rest split there. */
  lemma {:induction false} SplitAtFirst(subs: seq<Subscriber>, r: Receiver, i: nat)
    requires i < |subs| && ForMe(r, subs[i])
    requires forall j :: 0 <= j < i ==> !ForMe(r, subs[j])
    ensures Matched(subs, r) == [subs[i]] + Matched(subs[..i] + subs[i + 1..], r)
    ensures Unmatched(subs, r) == Unmatched(subs[..i] + subs[i + 1..], r)
    ensures First(subs, r) == i
  {
    var without := subs[..i] + subs[i + 1..];
    if i == 0 {
      assert without == subs[1..];
    } else {
      SplitAtFirst(subs[1..], r, i - 1);
      assert without[0] == subs[0] && without[1..] == subs[1..][..i - 1] + subs[1..][i..];
    }
  }

  lemma {:induction false} NoneMatched(subs: seq<Subscriber>, r: Receiver)
    requires forall j :: 0 <= j < |subs| ==> !ForMe(r, subs[j])
    ensures Matched(subs, r) == [] && Unmatched(subs, r) == subs && First(subs, r) == |subs|
  {
    if subs != [] {
      NoneMatched(subs[1..], r);
    }
  }

  lemma NoticesSplit(x: Subscriber, hit: seq<Subscriber>, s: Status)
    ensures Notices([x] + hit, s) == [Notified(x.id, s)] + Notices(hit, s)
  {
    assert ([x] + hit)[1..] == hit;
  }

  /** Notifying and deleting the first that is meant, then all the rest, comes to
      the same. */
  lemma NotifyFirst(m: Machine, n: Notification, i: nat)
    requires n.postNotifyDelete && i == First(m.subs, n.rcver) < |m.subs|
    ensures var s := m.subs[i];
      Agps.NotifySubscribers(
        m.(subs := m.subs[..i] + m.subs[i + 1..], log := m.log + [Notified(s.id, n.status)],
           retries := if m.ds && n.status == Denied then 0 else m.retries), n)
      == Agps.NotifySubscribers(m, n)
  {
    var s, rest := m.subs[i], Matched(m.subs[..i] + m.subs[i + 1..], n.rcver);
    SplitAtFirst(m.subs, n.rcver, i);
    NoticesSplit(s, rest, n.status);
    assert m.log + ([Notified(s.id, n.status)] + Notices(rest, n.status))
        == (m.log + [Notified(s.id, n.status)]) + Notices(rest, n.status);
  }

  lemma NotifyNobody(m: Machine, n: Notification)
    requires First(m.subs, n.rcver) == |m.subs|
    ensures Agps.NotifySubscribers(m, n) == m
  {
    NoneMatched(m.subs, n.rcver);
    assert m.log + [] == m.log;
  }

  /** What is left to do of a pass over the list that has `rest` before it. */
  ghost function Passed(m: Machine, rest: seq<Subscriber>, n: Notification): Machine {
    var hit := Matched(rest, n.rcver);
    m.(log := m.log + Notices(hit, n.status),
       retries := if m.ds && n.status == Denied && hit != [] then 0 else m.retries)
  }

  ghost function Told(m: Machine, s: Subscriber, status: Status): Machine {
    m.(log := m.log + [Notified(s.id, status)], retries := if m.ds && status == Denied then 0 else m.retries)
  }

  lemma PassStep(m: Machine, subs: seq<Subscriber>, i: nat, n: Notification)
    requires i < |subs|
    ensures Passed(m, subs[i..], n) ==
      Passed(if ForMe(n.rcver, subs[i]) then Told(m, subs[i], n.status) else m, subs[i + 1..], n)
  {
    var rest := Matched(subs[i + 1..], n.rcver);
    assert subs[i..][1..] == subs[i + 1..];
    assert Matched(subs[i..], n.rcver) == (if ForMe(n.rcver, subs[i]) then [subs[i]] else []) + rest;
    NoticesSplit(subs[i], rest, n.status);
    assert [] + rest == rest;
    assert m.log + ([Notified(subs[i].id, n.status)] + Notices(rest, n.status))
        == (m.log + [Notified(subs[i].id, n.status)]) + Notices(rest, n.status);
  }

  /** A subscriber as it is stored: the only thing that changes is that it becomes
      inactive. */
  class SubscriberObject {
    const id: int
    const waits: bool
    var inactive: bool

    /** A clone is always active. */
    constructor (s: Subscriber)
      ensures Value() == s.(inactive := false)
    {
      id, waits, inactive := s.id, s.waits, false;
    }

    function Value(): Subscriber
      reads this
    {
      Subscriber(id, waits, inactive)
    }

    predicate IsFor(r: Receiver)
      reads this
    {
      ForMe(r, Value())
    }
  }

  /** The test that a search for `r` is made with. */
  function MeantBy(r: Receiver): SubscriberObject ~> bool {
    (o: SubscriberObject) reads o => o.IsFor(r)
  }

  type Objects = seq<SubscriberObject>

  ghost predicate AllDifferent(objs: Objects) {
    forall i, j :: 0 <= i < j < |objs| ==> objs[i] != objs[j]
  }

  ghost function ValuesOf(objs: Objects): (vs: seq<Subscriber>)
    reads set o | o in objs
    ensures |vs| == |objs|
  {
    seq(|objs|, i requires 0 <= i < |objs| reads set o | o in objs => objs[i].Value())
  }

  ghost predicate AreNow(objs: Objects, vs: seq<Subscriber>)
    reads set o | o in objs
  {
    |objs| == |vs| && forall k :: 0 <= k < |objs| ==> objs[k].Value() == vs[k]
  }

  lemma ValuesAre(objs: Objects, vs: seq<Subscriber>)
    requires AreNow(objs, vs)
    ensures ValuesOf(objs) == vs
  {
  }

  ghost function DataOf(items: seq<L.Item<SubscriberObject>>): (objs: Objects)
    ensures |objs| == |items|
  {
    seq(|items|, i requires 0 <= i < |items| => items[i].data)
  }

  /** What the test for `r` makes of the stored objects, as they are now. */
  ghost function TestFor(objs: Objects, r: Receiver): SubscriberObject -> bool
    reads set o | o in objs
  {
    var values := map o | o in objs :: o.Value();
    o => o in values && ForMe(r, values[o])
  }

  lemma FirstMatchIsFirst(items: seq<L.Item<SubscriberObject>>, r: Receiver)
    ensures L.FirstMatch(items, TestFor(DataOf(items), r)) == First(ValuesOf(DataOf(items)), r)
  {
    var objs, test := DataOf(items), TestFor(DataOf(items), r);
    var i := L.FirstMatch(items, test);
    forall j | 0 <= j < |items| ensures test(items[j].data) == ForMe(r, ValuesOf(objs)[j]) {
      assert objs[j] in objs;
    }
    if i < |items| {
      SplitAtFirst(ValuesOf(objs), r, i);
    } else {
      NoneMatched(ValuesOf(objs), r);
    }
  }

  function Without<T>(s: seq<T>, i: nat): (r: seq<T>)
    requires i < |s|
  {
    s[..i] + s[i + 1..]
  }

  lemma WithoutOne(items: seq<L.Item<SubscriberObject>>, i: nat)
    requires i < |items|
    ensures DataOf(Without(items, i)) == Without(DataOf(items), i)
    ensures AllDifferent(DataOf(items)) ==> AllDifferent(Without(DataOf(items), i))
    ensures forall k :: 0 <= k < |items| - 1 ==> Without(DataOf(items), i)[k] in DataOf(items)
  {
  }

  lemma ValuesWithoutOne(objs: Objects, i: nat)
    requires i < |objs|
    ensures ValuesOf(Without(objs, i)) == Without(ValuesOf(objs), i)
  {
  }

  lemma PassedNobody(m: Machine, n: Notification)
    ensures Passed(m, [], n) == m
  {
    assert m.log + [] == m.log;
  }

  /** What an unsubscribe makes of the machine once the subscriber is out. */
  ghost function Settled(m: Machine, answer: Answer): Machine {
    if m.phase != InReleasing then ReleaseIfUnused(m, answer)
    else if m.subs == [] then m.(phase := InReleased)
    else m
  }

  class AgpsStateMachine {
    var phase: Phase
    const subscribers: L.LinkedList<SubscriberObject>
    var retries: nat
    const enforceSingleSubscriber: bool
    const isDs: bool
    ghost var log: seq<Item>

    ghost predicate Valid()
      reads subscribers, subscribers.nodes
    {
      subscribers.Valid() && AllDifferent(Listed())
    }

    /** The stored objects, from head to tail. */
    ghost function Listed(): (objs: Objects)
      reads subscribers
    {
      DataOf(subscribers.Contents())
    }

    ghost function Subscribers(): seq<Subscriber>
      reads subscribers, set o | o in Listed()
    {
      ValuesOf(Listed())
    }

    ghost function Value(): Machine
      reads this, subscribers, set o | o in Listed()
    {
      Machine(phase, Subscribers(), log, enforceSingleSubscriber, isDs, retries)
    }

    /** All that the machine's methods may change. */
    ghost function Footprint(): set<object>
      reads subscribers
    {
      {this, subscribers} + (set n | n in subscribers.nodes) + set o | o in Listed()
    }

    /** Nothing is listed that is not in `es` and `objs`. */
    ghost predicate Within(es: seq<L.ListElement<SubscriberObject>>, objs: Objects)
      reads subscribers
    {
      && (forall k :: 0 <= k < |subscribers.nodes| ==> subscribers.nodes[k] in es)
      && (forall k :: 0 <= k < |Listed()| ==> Listed()[k] in objs)
    }

    constructor (single: bool, ds: bool)
      ensures Valid() && fresh(Footprint()) && Value() == NewMachine(single, ds)
    {
      phase, retries := InReleased, 0;
      enforceSingleSubscriber, isDs, log := single, ds, [];
      subscribers := new L.LinkedList<SubscriberObject>();
    }

    /** `linked_list_search` without removal. */
    method Search(r: Receiver) returns (s: SubscriberObject?, ghost i: nat)
      requires Valid()
      ensures i == First(Subscribers(), r)
      ensures s == if i < |Listed()| then Listed()[i] else null
    {
      ghost var test := TestFor(Listed(), r);
      TestsAs(r);
      var e;
      e, i := subscribers.FindFirst(MeantBy(r), test);
      FirstMatchIsFirst(subscribers.Contents(), r);
      s := null;
      if e != null {
        s := e.item.data;
      }
    }

    lemma TestsAs(r: Receiver)
      requires Valid()
      ensures subscribers.Tests(MeantBy(r), TestFor(Listed(), r))
    {
      forall k | 0 <= k < |subscribers.nodes|
        ensures subscribers.nodes[k].item.data.IsFor(r) == TestFor(Listed(), r)(subscribers.nodes[k].item.data)
      {
        assert subscribers.nodes[k].item.data == Listed()[k];
      }
    }

    /** `linked_list_search` with removal: the object is handed to the caller. */
    method SearchAndRemove(r: Receiver) returns (s: SubscriberObject?, ghost i: nat)
      requires Valid()
      modifies subscribers, subscribers.nodes
      ensures Valid() && Within(old(subscribers.nodes), old(Listed()))
      ensures i == First(old(Subscribers()), r)
      ensures var was, objs := old(Subscribers()), old(Listed());
        if i < |objs| then s == objs[i] && Listed() == Without(objs, i) && Subscribers() == Without(was, i)
        else s == null && Listed() == objs && Subscribers() == was
    {
      ghost var objs, was := Listed(), Subscribers();
      FirstMatchIsFirst(subscribers.Contents(), r);
      i := First(was, r);
      s := Take(r);
      ValuesAre(objs, was);
      if i < |objs| {
        ValuesWithoutOne(objs, i);
      }
    }

    /** The call of the list, and that it leaves the subscribers alone. */
    method Take(r: Receiver) returns (s: SubscriberObject?)
      requires Valid()
      modifies subscribers, subscribers.nodes
      ensures Valid() && Within(old(subscribers.nodes), old(Listed()))
      ensures
        var objs, i := old(Listed()), L.FirstMatch(old(subscribers.Contents()), old(TestFor(Listed(), r)));
        if i < |objs| then s == objs[i] && Listed() == Without(objs, i) else s == null && Listed() == objs
      ensures AreNow(old(Listed()), old(Subscribers()))
    {
      ghost var objs, values := Listed(), Subscribers();
      TestsAs(r);
      var slot := Unlink(r, TestFor(Listed(), r));
      s := if slot.Some? then slot.value else null;
      assert forall k :: 0 <= k < |objs| ==> objs[k].inactive == old(objs[k].inactive);
    }

    method Unlink(r: Receiver, ghost test: SubscriberObject -> bool) returns (slot: Option<SubscriberObject>)
      requires Valid() && subscribers.Tests(MeantBy(r), test)
      modifies subscribers, subscribers.nodes
      ensures Valid() && Within(old(subscribers.nodes), old(Listed()))
      ensures var objs, i := old(Listed()), L.FirstMatch(old(subscribers.Contents()), test);
        if i < |objs| then slot == Some(objs[i]) && Listed() == Without(objs, i)
        else slot == None && Listed() == objs
    {
      ghost var items := subscribers.Contents();
      ghost var i := L.FirstMatch(items, test);
      if i < |items| {
        WithoutOne(items, i);
      }
      var err;
      err, slot := subscribers.Search(MeantBy(r), test, true, None, true);
      assert subscribers.Contents() == if i < |items| then Without(items, i) else items;
    }

    method HasFor(r: Receiver) returns (b: bool)
      requires Valid()
      ensures b == Has(Subscribers(), r)
    {
      var s, _ := Search(r);
      b := s != null;
    }

    method HasSubscribers() returns (b: bool)
      requires Valid()
      ensures b <==> Subscribers() != []
    {
      var empty := subscribers.Empty();
      b := !empty;
    }

    /** Writes down what went in or out. */
    ghost method Record(i: Item)
      requires Valid()
      modifies this`log
      ensures Valid() && Listed() == old(Listed()) && Footprint() == old(Footprint())
      ensures Value() == old(Value()).Log(i)
    {
      log := log + [i];
    }

    method Enter(p: Phase)
      requires Valid()
      modifies this`phase
      ensures Valid() && Listed() == old(Listed()) && Value() == old(Value()).(phase := p)
    {
      phase := p;
    }

    /** `notifyRsrcStatus` of one subscriber. */
    method NotifyOne(s: SubscriberObject, status: Status)
      requires Valid()
      modifies this`log, this`retries
      ensures Valid() && Listed() == old(Listed())
      ensures Value() == Told(old(Value()), s.Value(), status)
    {
      if isDs && status == Denied {
        retries := 0;
      }
      log := log + [Notified(s.id, status)];
    }

    /** Deleting: search from the head again after every deletion, until nobody
        is found.  Otherwise one pass over the list. */
    method NotifySubscribers(n: Notification)
      requires Valid()
      modifies this`log, this`retries, subscribers, subscribers.nodes
      ensures Valid() && Within(old(subscribers.nodes), old(Listed()))
      ensures Value() == Agps.NotifySubscribers(old(Value()), n)
    {
      if n.postNotifyDelete {
        NotifyAndDelete(n);
      } else {
        NotifyInPlace(n);
      }
    }

    /** One round of the loop: the first that is meant is unlinked, notified and
        deleted. */
    method NotifyNext(n: Notification, ghost goal: Machine) returns (found: bool)
      requires Valid() && n.postNotifyDelete && Agps.NotifySubscribers(Value(), n) == goal
      modifies this`log, this`retries, subscribers, subscribers.nodes
      ensures Valid() && Within(old(subscribers.nodes), old(Listed()))
      ensures found ==> |Listed()| < |old(Listed())| && Agps.NotifySubscribers(Value(), n) == goal
      ensures !found ==> Listed() == old(Listed()) && Value() == goal
    {
      ghost var was := Value();
      var s, i := SearchAndRemove(n.rcver);
      found := s != null;
      if found {
        assert Value() == was.(subs := Without(was.subs, i)) && s.id == was.subs[i].id;
        NotifyFirst(was, n, i);
        NotifyOne(s, n.status);
      } else {
        assert Value() == was;
        NotifyNobody(was, n);
      }
    }

    method NotifyAndDelete(n: Notification)
      requires Valid() && n.postNotifyDelete
      modifies this`log, this`retries, subscribers, subscribers.nodes
      ensures Valid() && Within(old(subscribers.nodes), old(Listed()))
      ensures Value() == Agps.NotifySubscribers(old(Value()), n)
    {
      ghost var goal := Agps.NotifySubscribers(Value(), n);
      var found := true;
      while found
        invariant Valid() && Within(old(subscribers.nodes), old(Listed()))
        invariant if found then Agps.NotifySubscribers(Value(), n) == goal else Value() == goal
        decreases |Listed()|, found
      {
        found := NotifyNext(n, goal);
      }
    }

    /** `linked_list_search` with a test that notifies and never says that it has
        found anything. */
    method NotifyInPlace(n: Notification)
      requires Valid() && !n.postNotifyDelete
      modifies this`log, this`retries
      ensures Valid() && Listed() == old(Listed())
      ensures Value() == Agps.NotifySubscribers(old(Value()), n)
    {
      ghost var subs, i := Subscribers(), 0;
      ghost var goal := Passed(Value(), subs, n);
      var e := subscribers.pHead;
      while e != null
        invariant Valid() && Listed() == old(Listed()) && Subscribers() == subs
        invariant 0 <= i <= |subs| && e == if i < |subs| then subscribers.nodes[i] else null
        invariant Passed(Value(), subs[i..], n) == goal
        decreases |subs| - i
      {
        PassStep(Value(), subs, i, n);
        assert subs[i] == e.item.data.Value();
        NotifyIfMeant(e.item.data, n);
        assert i + 1 < |subs| ==> subscribers.nodes[i].next == subscribers.nodes[i + 1];
        e := e.next;
        i := i + 1;
      }
      assert subs[i..] == [];
      PassedNobody(Value(), n);
    }

    /** The test that the search calls for each subscriber. */
    method NotifyIfMeant(s: SubscriberObject, n: Notification)
      requires Valid()
      modifies this`log, this`retries
      ensures Valid() && Listed() == old(Listed())
      ensures Value() == if ForMe(n.rcver, s.Value()) then Told(old(Value()), s.Value(), n.status) else old(Value())
    {
      if s.IsFor(n.rcver) {
        NotifyOne(s, n.status);
      }
    }

    method AddSubscriber(s: Subscriber)
      requires Valid()
      modifies this`log, subscribers, subscribers.nodes
      ensures Valid() && fresh(Footprint() - old(Footprint()))
      ensures Value() == Agps.AddSubscriber(old(Value()), s)
    {
      var known := HasFor(Only(s.id));
      if !known {
        AddClone(s);
        Record(Joined(s.id));
      }
    }

    method AddClone(s: Subscriber)
      requires Valid()
      modifies subscribers, subscribers.nodes
      ensures Valid() && fresh(Footprint() - old(Footprint()))
      ensures Subscribers() == [s.(inactive := false)] + old(Subscribers())
    {
      var clone := new SubscriberObject(s);
      Link(clone);
    }

    method Link(clone: SubscriberObject)
      requires Valid() && clone !in Listed()
      modifies subscribers, subscribers.nodes
      ensures Valid() && fresh(set e | e in subscribers.nodes && e !in old(subscribers.nodes))
      ensures Listed() == [clone] + old(Listed()) && Subscribers() == [clone.Value()] + old(Subscribers())
    {
      var err := subscribers.Add(Some(clone), true);
      assert Listed() == [clone] + old(Listed());
    }

    method SendRsrcRequest(a: Action, answer: Answer) returns (sent: bool)
      requires Valid()
      modifies this`log, this`retries
      ensures Valid() && Listed() == old(Listed())
      ensures (Value(), sent) == Agps.SendRsrcRequest(old(Value()), a, answer)
    {
      if isDs {
        sent := SendDs(a, answer);
      } else {
        SendIfRight(a);
        sent := true;
      }
    }

    /** The base machine: a request for active subscribers only, a release for none. */
    method SendIfRight(a: Action)
      requires Valid() && !isDs
      modifies this`log
      ensures Valid() && Listed() == old(Listed())
      ensures Value() == Agps.SendRsrcRequest(old(Value()), a, Ok).0
    {
      var active := HasFor(ActiveSubs);
      if active == (a == Request) {
        Record(Out(a));
      } else {
        Record(HeldBack(a));
      }
    }

    method FirstActive() returns (connHandle: int)
      requires Valid()
      ensures connHandle == ConnHandle(Subscribers())
    {
      var s, i := Search(ActiveSubs);
      connHandle := if s != null then s.id else -1;
      assert s != null ==> s.id == Subscribers()[i].id;
    }

    method SendDs(a: Action, answer: Answer) returns (sent: bool)
      requires Valid() && isDs
      modifies this`log, this`retries
      ensures Valid() && Listed() == old(Listed())
      ensures (Value(), sent) == Agps.SendRsrcRequest(old(Value()), a, answer)
    {
      var connHandle := FirstActive();
      Record(Out(a));
      sent := answer == Ok;
      HandleAnswer(answer, connHandle);
    }

    method HandleAnswer(answer: Answer, connHandle: int)
      requires Valid()
      modifies this`log, this`retries
      ensures Valid() && Listed() == old(Listed())
      ensures Value() == Agps.HandleAnswer(old(Value()), answer, connHandle)
    {
      match answer
      case EngineBusy =>
        IncRetries();
        if retries > MAX_START_DATA_CALL_RETRIES {
          FallBack(connHandle);
        }
      case Unsupported => FallBack(connHandle);
      case Failure => FallBack(connHandle);
      case _ =>
    }

    method IncRetries()
      requires Valid()
      modifies this`log, this`retries
      ensures Valid() && Listed() == old(Listed())
      ensures Value() == old(Value()).(retries := (old(retries) + 1) % 256).Log(Busy)
    {
      retries := (retries + 1) % 256;
      log := log + [Busy];
    }

    method FallBack(id: int)
      requires Valid()
      modifies this`log, this`retries
      ensures Valid() && Listed() == old(Listed())
      ensures Value() == GiveUp(old(Value()), id)
    {
      retries := 0;
      log := log + [Fallback(id)];
    }

    method SubscribeEvent(s: Subscriber, answer: Answer)
      requires Valid()
      modifies this, subscribers, subscribers.nodes
      ensures Valid() && fresh(Footprint() - old(Footprint()))
      ensures Value() == SubscribeOn(old(Value()), s, answer)
    {
      match phase
      case InReleased => FirstSubscribes(s, answer);
      case InPending => AddSubscriber(s);
      case InAcquired => GrantAtOnce(s);
      case InReleasing => AddSubscriber(s);
    }

    method GrantAtOnce(s: Subscriber)
      requires Valid()
      modifies this`log, subscribers, subscribers.nodes
      ensures Valid() && fresh(Footprint() - old(Footprint()))
      ensures Value() == Agps.AddSubscriber(old(Value()).Log(Notified(s.id, Granted)), s)
    {
      Record(Notified(s.id, Granted));
      AddSubscriber(s);
    }

    method FirstSubscribes(s: Subscriber, answer: Answer)
      requires Valid() && phase == InReleased
      modifies this, subscribers, subscribers.nodes
      ensures Valid() && fresh(Footprint() - old(Footprint()))
      ensures Value() == SubscribeOn(old(Value()), s, answer)
    {
      AddSubscriber(s);
      var sent := SendRsrcRequest(Request, answer);
      if sent {
        Enter(InPending);
      }
    }

    method SetInactive(s: SubscriberObject, ghost i: nat)
      requires Valid() && i < |Listed()| && Listed()[i] == s
      modifies this`log, s
      ensures Valid() && Listed() == old(Listed())
      ensures Value() == Agps.SetInactive(old(Value()), i)
    {
      s.inactive := true;
      if isDs {
        log := log + [Notified(s.id, Unsubscribe)];
      }
    }

    /** Takes a listed subscriber out of service. */
    method TakeOut(s: SubscriberObject, ghost i: nat)
      requires Valid() && i < |Listed()| && Listed()[i] == s
      modifies Footprint()
      ensures Valid() && Within(old(subscribers.nodes), old(Listed()))
      ensures Value() == Withdraw(old(Value()), i)
    {
      if s.waits {
        SetInactive(s, i);
      } else {
        NotifySubscribers(Notification(Only(s.id), Unsubscribe, true));
      }
    }

    method ReleaseUnused(answer: Answer)
      requires Valid()
      modifies this
      ensures Valid() && Listed() == old(Listed())
      ensures Value() == ReleaseIfUnused(old(Value()), answer)
    {
      var active := HasFor(ActiveSubs);
      var listed := HasSubscribers();
      if !listed {
        Enter(InReleased);
        var _ := SendRsrcRequest(Release, answer);
      } else if !active {
        Enter(InReleasing);
        var _ := SendRsrcRequest(Release, answer);
      }
    }

    method UnsubscribeEvent(s: SubscriberObject, ghost i: nat, answer: Answer)
      requires Valid() && i < |Listed()| && Listed()[i] == s
      modifies Footprint()
      ensures Valid() && Within(old(subscribers.nodes), old(Listed()))
      ensures Value() == UnsubscribeOn(old(Value()), i, answer)
    {
      if phase == InReleased {
        Record(Notified(s.id, Unsubscribe));
        return;
      }
      TakeOut(s, i);
      Settle(answer);
    }

    method Settle(answer: Answer)
      requires Valid()
      modifies this
      ensures Valid() && Listed() == old(Listed())
      ensures Value() == Settled(old(Value()), answer)
    {
      if phase != InReleasing {
        ReleaseUnused(answer);
      } else {
        var listed := HasSubscribers();
        if !listed {
          Enter(InReleased);
        }
      }
    }

    method StateEvent(e: Status, answer: Answer)
      requires Valid()
      modifies this, subscribers, subscribers.nodes
      ensures Valid() && Within(old(subscribers.nodes), old(Listed()))
      ensures Value() == EventOn(old(Value()), e, answer)
    {
      if phase == InPending && e == Granted {
        GrantedEvent(answer);
      } else if (phase == InPending && e == Denied) || (phase == InAcquired && e == Released) {
        EndEvent(e, answer);
      } else if phase == InReleasing && (e == Denied || e == Released) {
        CloseEvent(e, answer);
      }
    }

    method GrantedEvent(ghost answer: Answer)
      requires Valid() && phase == InPending
      modifies this, subscribers, subscribers.nodes
      ensures Valid() && Within(old(subscribers.nodes), old(Listed()))
      ensures Value() == EventOn(old(Value()), Granted, answer)
    {
      EnterAndNotify(InAcquired, Notification(ActiveSubs, Granted, false));
    }

    /** A denial while pending, or a release in hand: all leave. */
    method EndEvent(e: Status, ghost answer: Answer)
      requires Valid() && ((phase == InPending && e == Denied) || (phase == InAcquired && e == Released))
      modifies this, subscribers, subscribers.nodes
      ensures Valid() && Within(old(subscribers.nodes), old(Listed()))
      ensures Value() == EventOn(old(Value()), e, answer)
    {
      EnterAndNotify(InReleased, Notification(AllSubs, e, true));
    }

    method EnterAndNotify(p: Phase, n: Notification)
      requires Valid()
      modifies this, subscribers, subscribers.nodes
      ensures Valid() && Within(old(subscribers.nodes), old(Listed()))
      ensures Value() == Agps.NotifySubscribers(old(Value()).(phase := p), n)
    {
      Enter(p);
      NotifySubscribers(n);
    }

    method CloseEvent(e: Status, answer: Answer)
      requires Valid()
      modifies this, subscribers, subscribers.nodes
      ensures Valid() && Within(old(subscribers.nodes), old(Listed()))
      ensures Value() == AfterClose(old(Value()), e, answer)
    {
      NotifySubscribers(Notification(InactiveSubs, e, true));
      RequestAgain(answer);
    }

    /** A new request for whoever is active, after a close. */
    method RequestAgain(answer: Answer)
      requires Valid()
      modifies this
      ensures Valid() && Listed() == old(Listed())
      ensures Value() ==
        if Has(old(Subscribers()), ActiveSubs)
        then Agps.SendRsrcRequest(old(Value()).(phase := InPending), Request, answer).0
        else old(Value()).(phase := InReleased)
    {
      var active := HasFor(ActiveSubs);
      if active {
        Enter(InPending);
        var _ := SendRsrcRequest(Request, answer);
      } else {
        Enter(InReleased);
      }
    }

    method RefusesAnother() returns (b: bool)
      requires Valid()
      ensures b <==> enforceSingleSubscriber && Subscribers() != []
    {
      var listed := HasSubscribers();
      b := enforceSingleSubscriber && listed;
    }

    method SubscribeRsrc(s: Subscriber, answer: Answer)
      requires Valid()
      modifies this, subscribers, subscribers.nodes
      ensures Valid() && fresh(Footprint() - old(Footprint()))
      ensures Value() == Agps.SubscribeRsrc(old(Value()), s, answer)
    {
      var refused := RefusesAnother();
      if refused {
        Record(Refused(s.id));
      } else {
        SubscribeEvent(s, answer);
      }
    }

    method UnsubscribeRsrc(id: int, answer: Answer) returns (found: bool)
      requires Valid()
      modifies Footprint()
      ensures Valid() && Within(old(subscribers.nodes), old(Listed()))
      ensures Value() == Agps.UnsubscribeRsrc(old(Value()), id, answer)
      ensures found <==> Has(old(Subscribers()), Only(id))
    {
      var s, i := Search(Only(id));
      found := s != null;
      if found {
        UnsubscribeEvent(s, i, answer);
      }
    }

    method OnRsrcEvent(e: Status, answer: Answer)
      requires Valid()
      modifies this, subscribers, subscribers.nodes
      ensures Valid() && Within(old(subscribers.nodes), old(Listed()))
      ensures Value() == Agps.OnRsrcEvent(old(Value()), e, answer)
    {
      if e != Subscribe && e != Unsubscribe {
        var before := phase;
        Record(In(e));
        StateEvent(e, answer);
        if isDs && e == Released && phase == before {
          Record(In(Denied));
          StateEvent(Denied, answer);
        }
      }
    }

    method DropAllSubscribers()
      requires Valid()
      modifies this`log, subscribers
      ensures Valid() && Within(old(subscribers.nodes), old(Listed()))
      ensures Value() == Agps.DropAllSubscribers(old(Value()))
    {
      log := log + Drops(Subscribers());
      var _ := subscribers.Flush();
      assert Listed() == [];
    }
  }
}
