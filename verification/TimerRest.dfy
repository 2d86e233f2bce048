/** The message thread and the poll thread come to rest by themselves, so that no
    timer that is due waits for ever. */
module TimerRest {
  import opened Wrappers
  import opened Rankables
  import opened TimerSystem
  import opened TimerLifetime
  import opened TimerWakeup
  import H = HeapTree

  // ----- how much the two threads still have to do -----

  /** Steps of the message thread, what they send included. */
  function MsgWork(m: Msg): nat {
    match m
    case Push(_, _) => 13
    case Remove(_, _) => 4
    case Expire(_) => 3
  }

  function QueueWork(q: seq<Msg>): nat {
    if q == [] then 0 else MsgWork(q[0]) + QueueWork(q[1..])
  }

  function PcWork(pc: Pc): nat {
    match pc
    case Idle => 0
    case Deleting(_) => 1
    case Update(_, _, epollDone, victim) => (if epollDone then 1 else 2) + if victim.Some? then 1 else 0
    case Scan(_, _) => 3
    case Stopped(_, _, _) => 4
    case Popped(_, _, _) => 9
  }

  function PollWork(p: Poll): nat {
    if p.pending == [] then 0 else 6 * |p.pending| - if p.phase < 2 then p.phase else 2
  }

  function Work(s: State): nat {
    PcWork(s.pc) + QueueWork(s.queue) + 10 * (H.Count(s.sw.heap) + H.Count(s.hw.heap)) + PollWork(s.poll)
  }

  /** The steps that the two threads take by themselves. */
  predicate Own(l: Label) {
    l == Fetch || l == MsgStep || l == PollStep
  }

  lemma {:induction false} WorkSnoc(q: seq<Msg>, m: Msg)
    ensures QueueWork(q + [m]) == QueueWork(q) + MsgWork(m)
  {
    if q == [] {
      assert q + [m] == [m];
    } else {
      assert (q + [m])[1..] == q[1..] + [m];
      WorkSnoc(q[1..], m);
    }
  }

  // ----- every step takes some of it -----

  /** The containers other than `k` are as they were; `k` has `n` timers. */
  lemma HeapsWork(s: State, u: State, k: Kind)
    requires forall j: Kind :: j != k ==> u.Heap(j) == s.Heap(j)
    ensures H.Count(u.sw.heap) + H.Count(u.hw.heap) - H.Count(u.Heap(k))
         == H.Count(s.sw.heap) + H.Count(s.hw.heap) - H.Count(s.Heap(k))
  {
    var other := if k == Sw then Hw else Sw;
    assert u.Heap(other) == s.Heap(other);
  }

  lemma UpdateWork(s: State, k: Kind, priorTop: Option<Delegate>, victim: Option<Delegate>)
    ensures var u := BeginUpdate(s, k, priorTop, victim);
      u == s.(pc := u.pc) && PcWork(u.pc) <= if victim.Some? then 3 else 2
  {
  }

  lemma PushWork(s: State)
    requires Enabled(s, Fetch) && s.queue[0].Push?
    ensures Work(FetchMsg(s)) < Work(s) && FetchMsg(s).clock == s.clock
  {
    var k, d := s.queue[0].c, s.queue[0].d;
    var s2 := s.(queue := s.queue[1..]).WithHeap(k, H.Push(s.Heap(k), d));
    UpdateWork(s2, k, H.Peek(s.Heap(k)), None);
    HeapsWork(s, FetchMsg(s), k);
    H.PushConserves(s.Heap(k), d);
  }

  lemma RemoveCount(t: H.Tree, d: Delegate)
    ensures H.Count(H.AfterRemove(t, d)) <= H.Count(t)
  {
    if H.Remove(t, d).Some? {
      H.RemoveConserves(t, d);
    }
  }

  lemma RemoveWork(s: State)
    requires Enabled(s, Fetch) && s.queue[0].Remove?
    ensures Work(FetchMsg(s)) < Work(s) && FetchMsg(s).clock == s.clock
  {
    var k, d := s.queue[0].c, s.queue[0].d;
    UpdateWork(s.(queue := s.queue[1..]).WithHeap(k, H.AfterRemove(s.Heap(k), d)), k, None, Some(d));
    HeapsWork(s, FetchMsg(s), k);
    RemoveCount(s.Heap(k), d);
  }

  lemma ExpireWork(s: State)
    requires Enabled(s, Fetch) && s.queue[0].Expire?
    ensures Work(FetchMsg(s)) < Work(s) && FetchMsg(s).clock == s.clock
  {
    var k := s.queue[0].c;
    UpdateWork(s.(queue := s.queue[1..]), k, None, None);
    HeapsWork(s, FetchMsg(s), k);
    if s.Heap(k).Node? {
      H.PopConserves(s.Heap(k));
    }
  }

  lemma ScanWork(s: State)
    requires s.pc.Scan?
    ensures Work(MsgEffect(s)) < Work(s) && MsgEffect(s).clock == s.clock
  {
    var k := s.pc.c;
    UpdateWork(s, k, None, None);
    HeapsWork(s, MsgEffect(s), k);
    if TakesTop(s.Heap(k), s.pc.now) {
      H.PopConserves(s.Heap(k));
    }
  }

  lemma StopWork(s: State, c: nat)
    requires LifeInv(s) && c in s.clients
    ensures var u := StopTimer(CountStop(s, c, true), c);
      && QueueWork(u.queue) <= QueueWork(s.queue) + 4 && u.clock == s.clock
      && u.sw == s.sw && u.hw == s.hw && u.poll == s.poll
  {
    StopShape(s, c, true);
    StopIsQuiet(s, c, true);
    if s.clients[c].timer.Some? {
      var o := s.objects[s.clients[c].timer.value];
      WorkSnoc(s.queue, Remove(o.home, o.d));
    }
  }

  /** A popped timer's client is stopped, which sends a Remove, or there is none. */
  lemma PoppedSends(s: State)
    requires LifeInv(s) && s.pc.Popped?
    ensures var u := MsgEffect(s);
      && QueueWork(u.queue) <= QueueWork(s.queue) + 4 && u.clock == s.clock && PcWork(u.pc) <= 4
      && u.sw == s.sw && u.hw == s.hw && u.poll == s.poll
  {
    PoppedForm(s);
    var client := s.objects[s.pc.d.id].client;
    if client.Some? {
      StopWork(s, client.value);
    }
  }

  lemma PoppedWork(s: State)
    requires LifeInv(s) && s.pc.Popped?
    ensures Work(MsgEffect(s)) < Work(s) && MsgEffect(s).clock == s.clock
  {
    PoppedSends(s);
  }

  lemma MsgStepWork(s: State)
    requires LifeInv(s) && s.pc != Idle
    ensures Work(MsgEffect(s)) < Work(s) && MsgEffect(s).clock == s.clock
  {
    match s.pc
    case Popped(_, _, _) => PoppedWork(s);
    case Scan(_, _) => ScanWork(s);
    case Deleting(d) => assert VictimOk(s, d);
    case _ =>
  }

  lemma PollStepWork(s: State)
    requires s.poll.pending != []
    ensures Work(PollEffect(s)) < Work(s) && PollEffect(s).clock == s.clock
  {
    WorkSnoc(s.queue, Expire(s.poll.pending[0]));
  }

  lemma StepWork(s: State, l: Label)
    requires LifeInv(s) && Own(l) && Enabled(s, l)
    ensures Work(Step(s, l)) < Work(s) && Step(s, l).clock == s.clock
  {
    match l
    case Fetch =>
      match s.queue[0] {
        case Push(_, _) => PushWork(s);
        case Remove(_, _) => RemoveWork(s);
        case Expire(_) => ExpireWork(s);
      }
    case MsgStep => MsgStepWork(s);
    case PollStep => PollStepWork(s);
  }

  // ----- rest -----

  /** `to` goes on from `pre` with steps of the two threads alone, each of which
      takes place. */
  ghost predicate GoesOn(start: Timespec, pre: seq<Label>, to: seq<Label>)
    decreases |to|
  {
    to == pre ||
    (|to| > |pre| &&
     var before, last := to[..|to| - 1], to[|to| - 1];
     GoesOn(start, pre, before) && Own(last) && Enabled(Run(start, before), last))
  }

  /** `n` steps have come off the work, and no time has gone by. */
  ghost predicate Worked(s: State, u: State, n: nat) {
    n + Work(u) <= Work(s) && u.clock == s.clock
  }

  lemma WorksOn(s: State, u: State, v: State, n: nat)
    requires Worked(s, u, n) && Worked(u, v, 1)
    ensures Worked(s, v, n + 1)
  {
  }

  lemma LastWorks(start: Timespec, to: seq<Label>)
    requires to != [] && Own(to[|to| - 1]) && Enabled(Run(start, to[..|to| - 1]), to[|to| - 1])
    ensures Worked(Run(start, to[..|to| - 1]), Run(start, to), 1)
  {
    RunKeepsLife(start, to[..|to| - 1]);
    StepWork(Run(start, to[..|to| - 1]), to[|to| - 1]);
  }

  lemma WorkedByLast(start: Timespec, pre: seq<Label>, to: seq<Label>)
    requires |to| > |pre| && Own(to[|to| - 1]) && Enabled(Run(start, to[..|to| - 1]), to[|to| - 1])
    requires Worked(Run(start, pre), Run(start, to[..|to| - 1]), |to[..|to| - 1]| - |pre|)
    ensures Worked(Run(start, pre), Run(start, to), |to| - |pre|)
  {
    LastWorks(start, to);
    WorksOn(Run(start, pre), Run(start, to[..|to| - 1]), Run(start, to), |to[..|to| - 1]| - |pre|);
  }

  lemma NothingWorked(s: State)
    ensures Worked(s, s, 0)
  {
  }

  /** However the two threads go on by themselves, they cannot go on for more steps
      than there is work. */
  lemma {:induction false} WorkRunsOut(start: Timespec, pre: seq<Label>, to: seq<Label>)
    requires GoesOn(start, pre, to)
    ensures Worked(Run(start, pre), Run(start, to), |to| - |pre|)
    decreases |to|
  {
    if to != pre {
      WorkRunsOut(start, pre, to[..|to| - 1]);
      WorkedByLast(start, pre, to);
    } else {
      NothingWorked(Run(start, pre));
    }
  }

  /** They are at rest exactly when neither can go on. */
  lemma RestIsIdle(s: State)
    ensures AtRest(s) <==> forall l :: Own(l) ==> !Enabled(s, l)
  {
    assert Own(Fetch) && Own(MsgStep) && Own(PollStep);
    assert Enabled(s, Fetch) <==> s.pc == Idle && s.queue != [];
    assert Enabled(s, MsgStep) <==> s.pc != Idle;
    assert Enabled(s, PollStep) <==> s.poll.pending != [];
  }

  /** So whatever the order of their steps, once neither can go on they are at rest,
      and they get there within that many steps. */
  lemma ThreadsEndAtRest(start: Timespec, pre: seq<Label>, to: seq<Label>)
    requires GoesOn(start, pre, to) && forall l :: Own(l) ==> !Enabled(Run(start, to), l)
    ensures AtRest(Run(start, to)) && |to| - |pre| <= Work(Run(start, pre))
  {
    WorkRunsOut(start, pre, to);
    RestIsIdle(Run(start, to));
  }

  lemma Next(start: Timespec, pre: seq<Label>, l: Label) returns (to: seq<Label>)
    requires Enabled(Run(start, pre), l)
    ensures to == pre + [l] && Run(start, to) == Step(Run(start, pre), l)
  {
    to := pre + [l];
    assert to[..|pre|] == pre;
  }

  /** From every run the two threads come to rest. */
  lemma {:induction false} RestIsReached(start: Timespec, pre: seq<Label>) returns (to: seq<Label>)
    ensures GoesOn(start, pre, to) && AtRest(Run(start, to))
    decreases Work(Run(start, pre))
  {
    var s := Run(start, pre);
    if AtRest(s) {
      return pre;
    }
    var l := if s.pc != Idle then MsgStep else if s.queue != [] then Fetch else PollStep;
    var next := Next(start, pre, l);
    RunKeepsLife(start, pre);
    StepWork(s, l);
    to := RestIsReached(start, next);
    FirstGoesOn(start, pre, l, to);
  }

  lemma {:induction false} FirstGoesOn(start: Timespec, pre: seq<Label>, l: Label, to: seq<Label>)
    requires Own(l) && Enabled(Run(start, pre), l) && GoesOn(start, pre + [l], to)
    ensures GoesOn(start, pre, to)
    decreases |to|
  {
    if to == pre + [l] {
      assert to[..|to| - 1] == pre;
    } else {
      FirstGoesOn(start, pre, l, to[..|to| - 1]);
    }
  }

  // ----- no timer that is due waits for ever -----

  /** `to` goes on from `pre` by steps of the two threads, wake-ups included. */
  ghost predicate ByThreads(pre: seq<Label>, to: seq<Label>) {
    pre <= to && forall j :: |pre| <= j < |to| ==> Own(to[j]) || to[j].Wake?
  }

  lemma {:induction false} GoesOnByThreads(start: Timespec, pre: seq<Label>, to: seq<Label>)
    requires GoesOn(start, pre, to)
    ensures ByThreads(pre, to)
    decreases |to|
  {
    if to != pre {
      GoesOnByThreads(start, pre, to[..|to| - 1]);
      assert to == to[..|to| - 1] + [to[|to| - 1]];
    }
  }

  lemma Follows(a: seq<Label>, b: seq<Label>, c: seq<Label>)
    requires ByThreads(a, b) && ByThreads(b, c)
    ensures ByThreads(a, c)
  {
    assert c[..|b|] == b && b[..|a|] == a;
    assert c[..|a|] == b[..|a|];
    forall j | |a| <= j < |b| ensures c[j] == b[j] {
    }
  }

  /** At rest, a timer whose second is over makes the top fire: the poll thread
      wakes up and sends an Expire, which the message thread fetches. */
  lemma TopIsPopped(start: Timespec, pre: seq<Label>, k: Kind, d: Delegate) returns (to: seq<Label>)
    requires var s := Run(start, pre); AtRest(s) && InHeap(s, k, d) && d.due.sec < s.clock.sec
    ensures ByThreads(pre, to)
    ensures Run(start, to).clock == Run(start, pre).clock && Work(Run(start, to)) < Work(Run(start, pre))
  {
    TopIsDue(start, pre, k, d);
    to := ExpireComes(start, pre, k);
    ExpirePops(Run(start, pre), Run(start, to), k);
    to := Next(start, to, Fetch);
  }

  lemma TopIsDue(start: Timespec, pre: seq<Label>, k: Kind, d: Delegate)
    requires var s := Run(start, pre); AtRest(s) && InHeap(s, k, d) && d.due.sec < s.clock.sec
    ensures Run(start, pre).Heap(k).Node? && Enabled(Run(start, pre), Wake([k]))
  {
    RunKeepsLife(start, pre);
    assert HeapOk(Run(start, pre), k);
    H.TopIsMaximal(Run(start, pre).Heap(k), d);
    DueTopWakesThePoll(start, pre, k);
  }

  lemma ExpireComes(start: Timespec, pre: seq<Label>, k: Kind) returns (to: seq<Label>)
    requires AtRest(Run(start, pre)) && Enabled(Run(start, pre), Wake([k]))
    ensures ByThreads(pre, to) && to == pre + [Wake([k])] + [PollStep] + [PollStep] + [PollStep]
    ensures Awaits(Run(start, pre), Run(start, to), k)
  {
    to := Next(start, pre, Wake([k]));
    to := Next(start, to, PollStep);
    to := Next(start, to, PollStep);
    to := Next(start, to, PollStep);
  }

  /** `u` is `s`, at rest, but for an Expire that has been sent. */
  ghost predicate Awaits(s: State, u: State, k: Kind) {
    && u.clock == s.clock && u.pc == Idle && u.queue == [Expire(k)] && u.poll.pending == []
    && u.sw.heap == s.sw.heap && u.hw.heap == s.hw.heap
  }

  lemma ExpirePops(s: State, u: State, k: Kind)
    requires AtRest(s) && Awaits(s, u, k) && s.Heap(k).Node?
    ensures Enabled(u, Fetch) && Step(u, Fetch).clock == s.clock && Work(Step(u, Fetch)) < Work(s)
  {
    ExpirePopsTop(u, k);
    PoppedIsLess(s, FetchMsg(u), k);
  }

  lemma ExpirePopsTop(u: State, k: Kind)
    requires u.pc == Idle && u.queue == [Expire(k)] && u.Heap(k).Node?
    ensures var v := FetchMsg(u);
      && v.pc.Popped? && v.queue == [] && v.poll == u.poll && v.clock == u.clock
      && H.Count(v.Heap(k)) + 1 == H.Count(u.Heap(k)) && forall j: Kind :: j != k ==> v.Heap(j) == u.Heap(j)
  {
    H.PopConserves(u.Heap(k));
  }

  lemma PoppedIsLess(s: State, v: State, k: Kind)
    requires AtRest(s) && v.pc.Popped? && v.queue == [] && v.poll.pending == []
    requires H.Count(v.Heap(k)) + 1 == H.Count(s.Heap(k)) && forall j: Kind :: j != k ==> v.Heap(j) == s.Heap(j)
    ensures Work(v) < Work(s)
  {
    HeapsWork(s, v, k);
    OnlyHeapWork(s);
    OnlyHeapWork(v.(pc := Idle));
    assert Work(v) == Work(v.(pc := Idle)) + 9;
  }

  lemma OnlyHeapWork(s: State)
    requires AtRest(s)
    ensures Work(s) == 10 * (H.Count(s.sw.heap) + H.Count(s.hw.heap))
  {
  }

  lemma {:induction false} LeavesFromRest(start: Timespec, pre: seq<Label>, k: Kind, d: Delegate) returns (to: seq<Label>)
    requires var s := Run(start, pre); AtRest(s) && InHeap(s, k, d) && d.due.sec < s.clock.sec
    ensures ByThreads(pre, to) && !InHeap(Run(start, to), k, d)
    decreases Work(Run(start, pre))
  {
    var popped := TopIsPopped(start, pre, k, d);
    var rest := RestIsReached(start, popped);
    WorkRunsOut(start, popped, rest);
    GoesOnByThreads(start, popped, rest);
    Follows(pre, popped, rest);
    if InHeap(Run(start, rest), k, d) {
      to := LeavesFromRest(start, rest, k, d);
      Follows(pre, rest, to);
    } else {
      to := rest;
    }
  }

  /** From every run: a timer in a heap whose second is over is taken out of it by
      the two threads alone, whatever the clients have done and left undone. */
  lemma DueTimerLeavesTheHeap(start: Timespec, pre: seq<Label>, k: Kind, d: Delegate) returns (to: seq<Label>)
    requires InHeap(Run(start, pre), k, d) && d.due.sec < Run(start, pre).clock.sec
    ensures ByThreads(pre, to) && !InHeap(Run(start, to), k, d)
  {
    to := RestIsReached(start, pre);
    WorkRunsOut(start, pre, to);
    GoesOnByThreads(start, pre, to);
    if InHeap(Run(start, to), k, d) {
      var rest := to;
      to := LeavesFromRest(start, rest, k, d);
      Follows(pre, rest, to);
    }
  }
}
