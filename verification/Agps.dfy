/** The AGPS resource machine as a value: what each event makes of the state,
    the subscriber list, and the history of calls in and out. */
module Agps {

  /** The RSRC_* events. */
  datatype Status = Subscribe | Unsubscribe | Granted | Released | Denied

  datatype Phase = InReleased | InPending | InAcquired | InReleasing

  /** `waits` is waitForCloseComplete: such subscribers are set inactive by an
      unsubscribe and leave the list later. */
  datatype Subscriber = Subscriber(id: int, waits: bool, inactive: bool)

  /** Whom a notification is for: the subscriber equal to `id`, or a group. */
  datatype Receiver = Only(id: int) | AllSubs | ActiveSubs | InactiveSubs

  datatype Notification = Notification(rcver: Receiver, status: Status, postNotifyDelete: bool)

  datatype Action = Request | Release

  /** What the service answers to a data-call request (emergency machine only). */
  datatype Answer = Ok | EngineBusy | Unsupported | Failure | Unrecognised

  /** History: service events, requests to the service, requests that the send
      guard held back, notifications delivered, and list membership. */
  datatype Item =
    | In(e: Status)
    | Out(a: Action)
    | HeldBack(a: Action)
    | Notified(id: int, s: Status)
    | Joined(id: int)
    | Dropped(id: int)
    | Refused(id: int)
    | Busy
    | Fallback(id: int)

  const MAX_START_DATA_CALL_RETRIES := 4

  /** `ds` marks the emergency (DS) machine, the only one that uses `retries`. */
  datatype Machine = Machine(
    phase: Phase,
    subs: seq<Subscriber>,
    log: seq<Item>,
    single: bool,
    ds: bool,
    retries: nat)
  {
    function Log(i: Item): Machine {
      this.(log := log + [i])
    }
  }

  function NewMachine(single: bool, ds: bool): Machine {
    Machine(InReleased, [], [], single, ds, 0)
  }

  // ----- who is meant -----

  predicate ForMe(r: Receiver, s: Subscriber) {
    match r
    case Only(id) => s.id == id
    case AllSubs => true
    case ActiveSubs => !s.inactive
    case InactiveSubs => s.inactive
  }

  function Matched(subs: seq<Subscriber>, r: Receiver): seq<Subscriber> {
    if subs == [] then []
    else (if ForMe(r, subs[0]) then [subs[0]] else []) + Matched(subs[1..], r)
  }

  function Unmatched(subs: seq<Subscriber>, r: Receiver): seq<Subscriber> {
    if subs == [] then []
    else (if ForMe(r, subs[0]) then [] else [subs[0]]) + Unmatched(subs[1..], r)
  }

  /** The first subscriber that is meant, by index, or the length. */
  function First(subs: seq<Subscriber>, r: Receiver): (i: nat)
    ensures i <= |subs|
    ensures i < |subs| ==> ForMe(r, subs[i])
    ensures forall j :: 0 <= j < i ==> !ForMe(r, subs[j])
  {
    if subs == [] || ForMe(r, subs[0]) then 0 else 1 + First(subs[1..], r)
  }

  predicate Has(subs: seq<Subscriber>, r: Receiver) {
    First(subs, r) < |subs|
  }

  // ----- the machine's own operations -----

  function Notices(hit: seq<Subscriber>, s: Status): seq<Item> {
    if hit == [] then [] else [Notified(hit[0].id, s)] + Notices(hit[1..], s)
  }

  function NotifySubscribers(m: Machine, n: Notification): Machine {
    var hit := Matched(m.subs, n.rcver);
    m.(subs := if n.postNotifyDelete then Unmatched(m.subs, n.rcver) else m.subs,
       log := m.log + Notices(hit, n.status),
       retries := if m.ds && n.status == Denied && hit != [] then 0 else m.retries)
  }

  /** Adds an active copy at the head, unless an equal subscriber is listed. */
  function AddSubscriber(m: Machine, s: Subscriber): Machine {
    if Has(m.subs, Only(s.id)) then m
    else m.(subs := [s.(inactive := false)] + m.subs).Log(Joined(s.id))
  }

  function GiveUp(m: Machine, id: int): Machine {
    m.(retries := 0).Log(Fallback(id))
  }

  /** What the emergency machine makes of the answer to a request. */
  function HandleAnswer(m: Machine, answer: Answer, connHandle: int): Machine {
    match answer
    case EngineBusy =>
      var busy := m.(retries := (m.retries + 1) % 256).Log(Busy);
      if busy.retries > MAX_START_DATA_CALL_RETRIES then GiveUp(busy, connHandle) else busy
    case Unsupported => GiveUp(m, connHandle)
    case Failure => GiveUp(m, connHandle)
    case _ => m
  }

  /** The first active subscriber's ID. */
  function ConnHandle(subs: seq<Subscriber>): int {
    var i := First(subs, ActiveSubs);
    if i < |subs| then subs[i].id else -1
  }

  /** `sendRsrcRequest`, and whether it returned zero.  The base machine sends
      when an active subscriber is there for a request, or none for a release. */
  function SendRsrcRequest(m: Machine, a: Action, answer: Answer): (Machine, bool) {
    if m.ds then (HandleAnswer(m.Log(Out(a)), answer, ConnHandle(m.subs)), answer == Ok)
    else (m.Log(if Has(m.subs, ActiveSubs) == (a == Request) then Out(a) else HeldBack(a)), true)
  }

  // ----- the four states' handlers -----

  function SubscribeOn(m: Machine, s: Subscriber, answer: Answer): Machine {
    match m.phase
    case InReleased =>
      var (m', sent) := SendRsrcRequest(AddSubscriber(m, s), Request, answer);
      if sent then m'.(phase := InPending) else m'
    case InPending => AddSubscriber(m, s)
    case InAcquired => AddSubscriber(m.Log(Notified(s.id, Granted)), s)
    case InReleasing => AddSubscriber(m, s)
  }

  /** `setInactive`: an emergency subscriber is told of its unsubscribe at once. */
  function SetInactive(m: Machine, i: nat): Machine
    requires i < |m.subs|
  {
    var s := m.subs[i];
    var m' := m.(subs := m.subs[i := s.(inactive := true)]);
    if m.ds then m'.Log(Notified(s.id, Unsubscribe)) else m'
  }

  /** Takes subscriber `i` out of service: inactive if it waits for the close,
      else notified and deleted with every equal one. */
  function Withdraw(m: Machine, i: nat): Machine
    requires i < |m.subs|
  {
    var s := m.subs[i];
    if s.waits then SetInactive(m, i)
    else NotifySubscribers(m, Notification(Only(s.id), Unsubscribe, true))
  }

  function ReleaseIfUnused(m: Machine, answer: Answer): Machine {
    if m.subs == [] then SendRsrcRequest(m.(phase := InReleased), Release, answer).0
    else if !Has(m.subs, ActiveSubs) then SendRsrcRequest(m.(phase := InReleasing), Release, answer).0
    else m
  }

  function UnsubscribeOn(m: Machine, i: nat, answer: Answer): Machine
    requires i < |m.subs|
  {
    match m.phase
    case InReleased => m.Log(Notified(m.subs[i].id, Unsubscribe))
    case InPending => ReleaseIfUnused(Withdraw(m, i), answer)
    case InAcquired => ReleaseIfUnused(Withdraw(m, i), answer)
    case InReleasing =>
      var m' := Withdraw(m, i);
      if m'.subs == [] then m'.(phase := InReleased) else m'
  }

  function EventOn(m: Machine, e: Status, answer: Answer): Machine {
    match (m.phase, e)
    case (InPending, Granted) =>
      NotifySubscribers(m.(phase := InAcquired), Notification(ActiveSubs, e, false))
    case (InPending, Denied) =>
      NotifySubscribers(m.(phase := InReleased), Notification(AllSubs, e, true))
    case (InAcquired, Released) =>
      NotifySubscribers(m.(phase := InReleased), Notification(AllSubs, e, true))
    case (InReleasing, Released) => AfterClose(m, e, answer)
    case (InReleasing, Denied) => AfterClose(m, e, answer)
    case _ => m
  }

  /** The inactive leave; whoever became active meanwhile gets a new request. */
  function AfterClose(m: Machine, e: Status, answer: Answer): Machine {
    var m' := NotifySubscribers(m, Notification(InactiveSubs, e, true));
    if Has(m'.subs, ActiveSubs) then SendRsrcRequest(m'.(phase := InPending), Request, answer).0
    else m'.(phase := InReleased)
  }

  // ----- the calls that drive the machine -----

  datatype Call =
    | DoSubscribe(s: Subscriber, answer: Answer)
    | DoUnsubscribe(id: int, answer: Answer)
    | DoEvent(e: Status, answer: Answer)
    | DoDrop

  function SubscribeRsrc(m: Machine, s: Subscriber, answer: Answer): Machine {
    if m.single && m.subs != [] then m.Log(Refused(s.id)) else SubscribeOn(m, s, answer)
  }

  function UnsubscribeRsrc(m: Machine, id: int, answer: Answer): Machine {
    var i := First(m.subs, Only(id));
    if i < |m.subs| then UnsubscribeOn(m, i, answer) else m
  }

  /** A service event.  The emergency machine repeats a RELEASED that changed
      nothing as a DENIED. */
  function OnRsrcEvent(m: Machine, e: Status, answer: Answer): Machine {
    if e == Subscribe || e == Unsubscribe then m
    else
      var m' := EventOn(m.Log(In(e)), e, answer);
      if m.ds && e == Released && m'.phase == m.phase then EventOn(m'.Log(In(Denied)), Denied, answer)
      else m'
  }

  function Drops(subs: seq<Subscriber>): seq<Item> {
    if subs == [] then [] else [Dropped(subs[0].id)] + Drops(subs[1..])
  }

  function DropAllSubscribers(m: Machine): Machine {
    m.(subs := [], log := m.log + Drops(m.subs))
  }

  /** `DoDrop` is an engine restart, which does not touch the emergency machine. */
  function Do(m: Machine, c: Call): Machine {
    match c
    case DoSubscribe(s, answer) => SubscribeRsrc(m, s, answer)
    case DoUnsubscribe(id, answer) => UnsubscribeRsrc(m, id, answer)
    case DoEvent(e, answer) => OnRsrcEvent(m, e, answer)
    case DoDrop => if m.ds then m else DropAllSubscribers(m)
  }

  function Run(m: Machine, cs: seq<Call>): Machine {
    if cs == [] then m else Do(Run(m, cs[..|cs| - 1]), cs[|cs| - 1])
  }
}
