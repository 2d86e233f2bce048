/** The timer service as threads run it: client threads that start, stop and
    destroy timers, one poll thread, one message thread, and the kernel's
    timers.  One label is one atomic effect, so every interleaving of the
    threads is a sequence of labels. */
module TimerSystem {
  import opened Wrappers
  import opened Rankables
  import H = HeapTree

  datatype Kind = Sw | Hw

  /** A container's heap, what its timerfd is set to, and whether epoll watches it. */
  datatype Container = Container(heap: H.Tree, armed: Option<Timespec>, polled: bool)

  datatype Msg =
    | Push(c: Kind, d: Delegate)
    | Remove(c: Kind, d: Delegate)
    | Expire(c: Kind)

  /** A delegate object that has not been deleted: its mClient, its mContainer,
      the container it was sent to and the client whose lock it shares. */
  datatype Object = Object(
    d: Delegate,
    client: Option<nat>,
    container: Option<Kind>,
    home: Kind,
    owner: nat)

  /** A LocTimer and its LocSharedLock.  `starts` counts successful starts,
      `stops` successful stops by clients, `expireStops` those made by expiry;
      `frees` counts deletions of the lock. */
  datatype Client = Client(
    alive: bool,
    timer: Option<nat>,
    lockRef: int,
    frees: nat,
    starts: nat,
    stops: nat,
    expireStops: nat,
    callbacks: nat)

  /** Where the message thread is: between messages, inside
      updateSoonestTime before its epoll or its timerfd call, before deleting a
      delegate, before expiring a popped one, before a callback, or before
      looking at the heap again. */
  datatype Pc =
    | Idle
    | Update(c: Kind, arm: Option<Timespec>, epollDone: bool, victim: Option<Delegate>)
    | Deleting(d: Delegate)
    | Popped(c: Kind, now: Timespec, d: Delegate)
    | Stopped(c: Kind, now: Timespec, client: nat)
    | Scan(c: Kind, now: Timespec)

  /** Containers the poll thread woke up for, and how many of the three effects
      of `expire` it has had on the first of them. */
  datatype Poll = Poll(pending: seq<Kind>, phase: nat)

  datatype State = State(
    clients: map<nat, Client>,
    objects: map<nat, Object>,
    sw: Container,
    hw: Container,
    queue: seq<Msg>,
    pc: Pc,
    poll: Poll,
    clock: Timespec,
    nextId: nat)
  {
    function At(k: Kind): Container {
      if k == Sw then sw else hw
    }

    function With(k: Kind, c: Container): State {
      if k == Sw then this.(sw := c) else this.(hw := c)
    }

    function Heap(k: Kind): H.Tree {
      At(k).heap
    }

    function WithHeap(k: Kind, t: H.Tree): State {
      With(k, At(k).(heap := t))
    }

    function Send(m: Msg): State {
      this.(queue := queue + [m])
    }

    ghost predicate Live(d: Delegate) {
      d.id in objects && objects[d.id].d == d
    }
  }

  datatype Label =
    | NewClient(c: nat)
    | Start(c: nat, ms: nat, wakeOnExpire: bool)
    | Stop(c: nat)
    | Destroy(c: nat)
    | Tick(t: Timespec)
    | Fetch
    | MsgStep
    | Wake(evs: seq<Kind>)
    | PollStep

  function Init(t: Timespec): State {
    State(map[], map[], Container(H.Leaf, None, false), Container(H.Leaf, None, false),
          [], Idle, Poll([], 0), t, 0)
  }

  // ----- client threads, under the client's shared lock -----

  /** The absolute time that `start` computes. */
  function FutureTime(now: Timespec, ms: nat): Timespec {
    var sec, nsec := now.sec + ms / 1000, now.nsec + (ms % 1000) * 1_000_000;
    if nsec >= 1_000_000_000 then Timespec(sec + nsec / 1_000_000_000, nsec % 1_000_000_000)
    else Timespec(sec, nsec)
  }

  function StartTimer(s: State, c: nat, ms: nat, wakeOnExpire: bool): State
    requires c in s.clients
  {
    if s.clients[c].timer.Some? then s
    else
      var k := if wakeOnExpire then Hw else Sw;
      var d := Delegate(s.nextId, FutureTime(s.clock, ms));
      var cl := s.clients[c];
      s.(clients := s.clients[c := cl.(timer := Some(d.id), lockRef := cl.lockRef + 1, starts := cl.starts + 1)],
         objects := s.objects[d.id := Object(d, Some(c), Some(k), k, c)],
         nextId := s.nextId + 1)
       .Send(Push(k, d))
  }

  /** `destroyLocked` on the delegate numbered `i`. */
  function DestroyLocked(s: State, i: nat): State {
    if i !in s.objects then s
    else
      var o := s.objects[i];
      var s' := s.(objects := s.objects[i := o.(client := None, container := None)]);
      if o.container.Some? then s'.Send(Remove(o.container.value, o.d)) else s'
  }

  /** `LocTimer::stop`: succeeds when the client had a timer. */
  function StopTimer(s: State, c: nat): State
    requires c in s.clients
  {
    var cl := s.clients[c];
    if cl.timer.None? then s
    else DestroyLocked(s.(clients := s.clients[c := cl.(timer := None)]), cl.timer.value)
  }

  function CountStop(s: State, c: nat, byExpire: bool): State
    requires c in s.clients
  {
    var cl := s.clients[c];
    if cl.timer.None? then s
    else if byExpire then s.(clients := s.clients[c := cl.(expireStops := cl.expireStops + 1)])
    else s.(clients := s.clients[c := cl.(stops := cl.stops + 1)])
  }

  /** `LocSharedLock::drop`. */
  function DropLock(s: State, c: nat): State {
    if c !in s.clients then s
    else
      var cl := s.clients[c];
      s.(clients := s.clients[c := cl.(lockRef := cl.lockRef - 1,
                                       frees := if cl.lockRef == 1 then cl.frees + 1 else cl.frees)])
  }

  function DestroyTimer(s: State, c: nat): State
    requires c in s.clients
  {
    var s1 := StopTimer(CountStop(s, c, false), c);
    DropLock(s1.(clients := s1.clients[c := s1.clients[c].(alive := false)]), c)
  }

  // ----- the message thread -----

  function Finish(s: State, victim: Option<Delegate>): State {
    s.(pc := if victim.Some? then Deleting(victim.value) else Idle)
  }

  /** The decision of `updateSoonestTime(priorTop)`. */
  function BeginUpdate(s: State, k: Kind, priorTop: Option<Delegate>, victim: Option<Delegate>): State {
    var curTop := H.Peek(s.Heap(k));
    if curTop == priorTop then Finish(s, victim)
    else if curTop.None? then s.(pc := Update(k, None, false, victim))
    else if priorTop.None? || OutRanks(curTop.value, priorTop.value)
    then s.(pc := Update(k, Some(curTop.value.due), false, victim))
    else Finish(s, victim)
  }

  function FetchMsg(s: State): State
    requires s.queue != []
  {
    var s1 := s.(queue := s.queue[1..]);
    match s.queue[0]
    case Push(k, d) =>
      BeginUpdate(s1.WithHeap(k, H.Push(s.Heap(k), d)), k, H.Peek(s.Heap(k)), None)
    case Remove(k, d) =>
      var removed := if H.Remove(s.Heap(k), d).Some? then Some(d) else None;
      var s2 := s1.WithHeap(k, H.AfterRemove(s.Heap(k), d));
      if H.Peek(s.Heap(k)) == removed then BeginUpdate(s2, k, None, Some(d))
      else Finish(s2, Some(d))
    case Expire(k) =>
      if s.Heap(k).Leaf? then BeginUpdate(s1, k, None, None)
      else s1.WithHeap(k, H.Pop(s.Heap(k))).(pc := Popped(k, s.clock, s.Heap(k).data))
  }

  /** Whether `popIfOutRanks` takes the top: unless "now" outranks it. */
  predicate TakesTop(t: H.Tree, now: Timespec) {
    t.Node? && !OutRanks(Delegate(0, now), t.data)
  }

  function MsgEffect(s: State): State
    requires s.pc != Idle
  {
    match s.pc
    case Update(k, arm, false, v) =>
      s.With(k, s.At(k).(polled := arm.Some?)).(pc := Update(k, arm, true, v))
    case Update(k, arm, true, v) =>
      Finish(s.With(k, s.At(k).(armed := arm)), v)
    case Deleting(d) =>
      if d.id !in s.objects then s
      else DropLock(s.(objects := s.objects - {d.id}, pc := Idle), s.objects[d.id].owner)
    case Popped(k, now, d) =>
      var client := if d.id in s.objects then s.objects[d.id].client else None;
      if client.Some? && client.value in s.clients && s.clients[client.value].timer.Some?
      then StopTimer(CountStop(s, client.value, true), client.value).(pc := Stopped(k, now, client.value))
      else s.(pc := Scan(k, now))
    case Stopped(k, now, c) =>
      if c !in s.clients then s
      else s.(clients := s.clients[c := s.clients[c].(callbacks := s.clients[c].callbacks + 1)],
              pc := Scan(k, now))
    case Scan(k, now) =>
      if TakesTop(s.Heap(k), now)
      then s.WithHeap(k, H.Pop(s.Heap(k))).(pc := Popped(k, now, s.Heap(k).data))
      else BeginUpdate(s, k, None, None)
  }

  // ----- the poll thread -----

  /** `expire`: disarm, leave epoll, send. */
  function PollEffect(s: State): State
    requires s.poll.pending != []
  {
    var k := s.poll.pending[0];
    if s.poll.phase == 0 then s.With(k, s.At(k).(armed := None)).(poll := s.poll.(phase := 1))
    else if s.poll.phase == 1 then s.With(k, s.At(k).(polled := false)).(poll := s.poll.(phase := 2))
    else s.Send(Expire(k)).(poll := Poll(s.poll.pending[1..], 0))
  }

  /** Not later: seconds count first. */
  predicate Earlier(a: Timespec, b: Timespec) {
    a.sec < b.sec || (a.sec == b.sec && a.nsec <= b.nsec)
  }

  /** epoll_wait can report the container: it watches an armed timer that has
      run out and that nobody has set since. */
  predicate Ready(s: State, k: Kind) {
    s.At(k).polled && s.At(k).armed.Some? && Earlier(s.At(k).armed.value, s.clock)
  }

  // ----- all steps -----

  predicate Enabled(s: State, l: Label) {
    match l
    case NewClient(c) => c !in s.clients
    case Start(c, _, _) => c in s.clients && s.clients[c].alive
    case Stop(c) => c in s.clients && s.clients[c].alive
    case Destroy(c) => c in s.clients && s.clients[c].alive
    case Tick(t) => t.Normalised() && Earlier(s.clock, t)
    case Fetch => s.pc == Idle && s.queue != []
    case MsgStep => s.pc != Idle
    case Wake(evs) =>
      && s.poll.pending == [] && 1 <= |evs| <= 2 && (|evs| == 2 ==> evs[0] != evs[1])
      && forall k :: k in evs ==> Ready(s, k)
    case PollStep => s.poll.pending != []
  }

  function Step(s: State, l: Label): State
    requires Enabled(s, l)
  {
    match l
    case NewClient(c) => s.(clients := s.clients[c := Client(true, None, 1, 0, 0, 0, 0, 0)])
    case Start(c, ms, wake) => StartTimer(s, c, ms, wake)
    case Stop(c) => StopTimer(CountStop(s, c, false), c)
    case Destroy(c) => DestroyTimer(s, c)
    case Tick(t) => s.(clock := t)
    case Fetch => FetchMsg(s)
    case MsgStep => MsgEffect(s)
    case Wake(evs) => s.(poll := Poll(evs, 0))
    case PollStep => PollEffect(s)
  }

  /** A run; a label that is not enabled when its turn comes has no effect. */
  function Run(start: Timespec, ls: seq<Label>): State {
    if ls == [] then Init(start)
    else
      var s, l := Run(start, ls[..|ls| - 1]), ls[|ls| - 1];
      if Enabled(s, l) then Step(s, l) else s
  }

  /** The delegates, by address, whose memory the step may read or write. */
  ghost function Touched(s: State, l: Label): set<nat> {
    match l
    case Fetch => if s.queue == [] then {} else TouchedByMsg(s, s.queue[0])
    case MsgStep => TouchedByPc(s, s.pc)
    case Stop(c) => TouchedByStop(s, c)
    case Destroy(c) => TouchedByStop(s, c)
    case _ => {}
  }

  ghost function TouchedByMsg(s: State, m: Msg): set<nat> {
    match m
    case Push(k, d) => HeapIds(s.Heap(k)) + {d.id}
    case Remove(k, d) => HeapIds(s.Heap(k)) + {d.id}
    case Expire(k) => HeapIds(s.Heap(k))
  }

  ghost function TouchedByPc(s: State, pc: Pc): set<nat> {
    match pc
    case Update(k, _, false, _) => if s.Heap(k).Node? then {s.Heap(k).data.id} else {}
    case Deleting(d) => {d.id}
    case Popped(_, _, d) =>
      {d.id} + if d.id in s.objects && s.objects[d.id].client.Some?
               then TouchedByStop(s, s.objects[d.id].client.value) else {}
    case Scan(k, _) => HeapIds(s.Heap(k))
    case _ => {}
  }

  ghost function TouchedByStop(s: State, c: nat): set<nat> {
    if c in s.clients && s.clients[c].timer.Some? then {s.clients[c].timer.value} else {}
  }

  ghost function HeapIds(t: H.Tree): set<nat> {
    set d | d in H.Elements(t) :: d.id
  }
}
