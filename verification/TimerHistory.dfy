/** Everything that was ever sent to the message thread, over a whole run: one Push
    for every delegate, and at most one Remove, after it. */
module TimerHistory {
  import opened Wrappers
  import opened Rankables
  import opened TimerSystem
  import opened TimerLifetime

  // ----- the history of a run -----

  /** What a step adds to the queue. */
  function SentBy(s: State, l: Label): seq<Msg>
    requires Enabled(s, l)
  {
    var q, left := Step(s, l).queue, |s.queue| - if l.Fetch? then 1 else 0;
    if left <= |q| then q[left..] else []
  }

  function Sent(start: Timespec, ls: seq<Label>): seq<Msg> {
    if ls == [] then []
    else
      var p, l := ls[..|ls| - 1], ls[|ls| - 1];
      Sent(start, p) + if Enabled(Run(start, p), l) then SentBy(Run(start, p), l) else []
  }

  function TakenBy(s: State, l: Label): seq<Msg>
    requires Enabled(s, l)
  {
    if l.Fetch? then [s.queue[0]] else []
  }

  /** What the message thread has taken out of the queue. */
  function Fetched(start: Timespec, ls: seq<Label>): seq<Msg> {
    if ls == [] then []
    else
      var p, l := ls[..|ls| - 1], ls[|ls| - 1];
      Fetched(start, p) + if Enabled(Run(start, p), l) then TakenBy(Run(start, p), l) else []
  }

  // ----- what each step sends -----

  /** What a step sends, by what it does to the delegates' objects. */
  ghost predicate Sends(s: State, u: State, ms: seq<Msg>) {
    || (exists o :: Adds(s, u, o) && ms == [Push(o.home, o.d)])
    || (exists i :: Detaches(s, u.(pc := s.pc), i) && ms == [Remove(s.objects[i].home, s.objects[i].d)])
    || (exists k :: ms == [Expire(k)] && SameObjects(s, u))
    || (ms == [] && (SameObjects(s, u) || Forgets(s, u)))
  }

  ghost predicate SameObjects(s: State, u: State) {
    u.objects == s.objects && u.nextId == s.nextId
  }

  /** A delegate is deleted that had been stopped. */
  ghost predicate Forgets(s: State, u: State) {
    s.pc.Deleting? && s.Live(s.pc.d) && Detached(s, s.pc.d)
    && u.objects == s.objects - {s.pc.d.id} && u.nextId == s.nextId
  }

  lemma StartSends(s: State, c: nat, ms: nat, wake: bool)
    requires ObjectsOk(s) && c in s.clients && s.clients[c].alive
    ensures var u := StartTimer(s, c, ms, wake);
      && |s.queue| <= |u.queue| && u.queue[..|s.queue|] == s.queue && Sends(s, u, u.queue[|s.queue|..])
  {
    var u := StartTimer(s, c, ms, wake);
    if s.clients[c].timer.None? {
      assert Adds(s, u, u.objects[s.nextId]);
    }
  }

  lemma StopSends(s: State, c: nat, byExpire: bool, u: State)
    requires ObjectsOk(s) && ClientsOk(s) && c in s.clients
    requires var v := StopTimer(CountStop(s, c, byExpire), c);
      && u.objects == v.objects && u.queue == v.queue && u.nextId == v.nextId
      && u.sw.heap == v.sw.heap && u.hw.heap == v.hw.heap
    ensures |s.queue| <= |u.queue| && u.queue[..|s.queue|] == s.queue && Sends(s, u, u.queue[|s.queue|..])
  {
    StopShape(s, c, byExpire);
    if s.clients[c].timer.Some? {
      assert Detaches(s, u.(pc := s.pc), s.clients[c].timer.value);
    }
  }

  /** The queue from before, less a message that was fetched. */
  function LeftOf(s: State, l: Label): seq<Msg>
    requires Enabled(s, l)
  {
    if l.Fetch? then s.queue[1..] else s.queue
  }

  ghost predicate Moves(s: State, l: Label)
    requires Enabled(s, l)
  {
    Step(s, l).queue == LeftOf(s, l) + SentBy(s, l) && Sends(s, Step(s, l), SentBy(s, l))
  }

  lemma FetchMoves(s: State)
    requires Enabled(s, Fetch)
    ensures Moves(s, Fetch)
  {
    match s.queue[0]
    case Push(_, _) => FetchPushShape(s);
    case Remove(_, _) => FetchRemoveForm(s);
    case Expire(k) => UpdateShape(s.(queue := s.queue[1..]), k, None, None);
  }

  lemma PoppedMoves(s: State)
    requires LifeInv(s) && s.pc.Popped?
    ensures Moves(s, MsgStep)
  {
    PoppedForm(s);
    if s.objects[s.pc.d.id].client.Some? {
      StopSends(s, s.objects[s.pc.d.id].client.value, true, MsgEffect(s));
    }
  }

  lemma DeletingMoves(s: State)
    requires LifeInv(s) && s.pc.Deleting?
    ensures Moves(s, MsgStep)
  {
    assert VictimOk(s, s.pc.d);
    DeleteShape(s);
  }

  lemma MsgMoves(s: State)
    requires LifeInv(s) && s.pc != Idle
    ensures Moves(s, MsgStep)
  {
    match s.pc
    case Popped(_, _, _) => PoppedMoves(s);
    case Deleting(_) => DeletingMoves(s);
    case Scan(k, _) => UpdateShape(s, k, None, None);
    case _ =>
  }

  lemma PollMoves(s: State)
    requires s.poll.pending != []
    ensures Moves(s, PollStep)
  {
    var u := PollEffect(s);
    if s.poll.phase != 0 && s.poll.phase != 1 {
      assert SentBy(s, PollStep) == [Expire(s.poll.pending[0])] && SameObjects(s, u);
    }
  }

  lemma StepMoves(s: State, l: Label)
    requires LifeInv(s) && Enabled(s, l)
    ensures Moves(s, l)
  {
    match l
    case Start(c, ms, wake) => StartSends(s, c, ms, wake);
    case Stop(c) => StopSends(s, c, false, Step(s, l));
    case Destroy(c) =>
      StopShape(s, c, false);
      StopSends(s, c, false, Step(s, l));
    case Fetch => FetchMoves(s);
    case MsgStep => MsgMoves(s);
    case PollStep => PollMoves(s);
    case _ =>
  }

  // ----- counting -----

  function PushesOf(ms: seq<Msg>, i: nat): nat {
    if ms == [] then 0
    else
      var m := ms[|ms| - 1];
      PushesOf(ms[..|ms| - 1], i) + if m.Push? && m.d.id == i then 1 else 0
  }

  function RemovesOf(ms: seq<Msg>, i: nat): nat {
    if ms == [] then 0
    else
      var m := ms[|ms| - 1];
      RemovesOf(ms[..|ms| - 1], i) + if m.Remove? && m.d.id == i then 1 else 0
  }

  lemma CountSnoc(ms: seq<Msg>, m: Msg, i: nat)
    ensures PushesOf(ms + [m], i) == PushesOf(ms, i) + if m.Push? && m.d.id == i then 1 else 0
    ensures RemovesOf(ms + [m], i) == RemovesOf(ms, i) + if m.Remove? && m.d.id == i then 1 else 0
  {
    assert (ms + [m])[..|ms|] == ms;
  }

  /** Somebody still waits for delegate `i`. */
  predicate InUse(s: State, i: nat) {
    i in s.objects && s.objects[i].client.Some?
  }

  ghost predicate Counted(s: State, sent: seq<Msg>, i: nat) {
    && PushesOf(sent, i) == (if i < s.nextId then 1 else 0)
    && RemovesOf(sent, i) == (if i < s.nextId && !InUse(s, i) then 1 else 0)
  }

  /** A message is about a delegate that was made, and what it says of it holds. */
  ghost predicate AboutOk(s: State, m: Msg) {
    !m.Expire? ==>
      && m.d.id < s.nextId
      && (m.d.id in s.objects ==> s.objects[m.d.id].d == m.d && s.objects[m.d.id].home == m.c)
  }

  /** Two messages about one delegate agree on it, and no Push follows a Remove. */
  ghost predicate Follows(a: Msg, b: Msg) {
    !a.Expire? && !b.Expire? && a.d.id == b.d.id ==> a.c == b.c && a.d == b.d && a.Push? && b.Remove?
  }

  ghost predicate HistoryOk(s: State, sent: seq<Msg>) {
    && (forall i: nat :: Counted(s, sent, i))
    && (forall m :: m in sent ==> AboutOk(s, m))
    && (forall a, b :: 0 <= a < b < |sent| ==> Follows(sent[a], sent[b]))
  }

  lemma HistorySnoc(s: State, u: State, sent: seq<Msg>, m: Msg)
    requires HistoryOk(s, sent) && forall i: nat :: Counted(u, sent + [m], i)
    requires forall x :: x in sent ==> AboutOk(u, x) && Follows(x, m)
    requires AboutOk(u, m)
    ensures HistoryOk(u, sent + [m])
  {
    var sent' := sent + [m];
    forall a, b | 0 <= a < b < |sent'| ensures Follows(sent'[a], sent'[b]) {
      assert sent'[a] == sent[a] && sent[a] in sent;
      if b < |sent| {
        assert sent'[b] == sent[b];
      }
    }
  }

  lemma NoSecondRemove(sent: seq<Msg>, i: nat)
    requires RemovesOf(sent, i) == 0
    ensures forall m :: m in sent && m.Remove? ==> m.d.id != i
  {
    if sent != [] {
      var p := sent[..|sent| - 1];
      NoSecondRemove(p, i);
      assert sent == p + [sent[|sent| - 1]];
    }
  }

  lemma AddedInHistory(s: State, u: State, sent: seq<Msg>, o: Object)
    requires ObjectsOk(s) && HistoryOk(s, sent) && Adds(s, u, o)
    ensures HistoryOk(u, sent + [Push(o.home, o.d)])
  {
    var m := Push(o.home, o.d);
    forall i: nat ensures Counted(u, sent + [m], i) {
      CountSnoc(sent, m, i);
      assert Counted(s, sent, i);
    }
    forall x | x in sent ensures AboutOk(u, x) && Follows(x, m) {
      assert AboutOk(s, x);
    }
    HistorySnoc(s, u, sent, m);
  }

  lemma DetachedInHistory(s: State, u: State, sent: seq<Msg>, i: nat)
    requires ObjectsOk(s) && HistoryOk(s, sent) && Detaches(s, u.(pc := s.pc), i)
    ensures HistoryOk(u, sent + [Remove(s.objects[i].home, s.objects[i].d)])
  {
    var m := Remove(s.objects[i].home, s.objects[i].d);
    assert ObjectOk(s, i) && Counted(s, sent, i);
    NoSecondRemove(sent, i);
    forall j: nat ensures Counted(u, sent + [m], j) {
      CountSnoc(sent, m, j);
      assert Counted(s, sent, j);
    }
    forall x | x in sent ensures AboutOk(u, x) && Follows(x, m) {
      assert AboutOk(s, x);
    }
    HistorySnoc(s, u, sent, m);
  }

  lemma ExpireInHistory(s: State, u: State, sent: seq<Msg>, k: Kind)
    requires HistoryOk(s, sent) && SameObjects(s, u)
    ensures HistoryOk(u, sent + [Expire(k)])
  {
    forall i: nat ensures Counted(u, sent + [Expire(k)], i) {
      CountSnoc(sent, Expire(k), i);
      assert Counted(s, sent, i);
    }
    forall x | x in sent ensures AboutOk(u, x) { assert AboutOk(s, x); }
    HistorySnoc(s, u, sent, Expire(k));
  }

  lemma NothingInHistory(s: State, u: State, sent: seq<Msg>)
    requires HistoryOk(s, sent) && (SameObjects(s, u) || Forgets(s, u))
    ensures HistoryOk(u, sent)
  {
    forall i: nat ensures Counted(u, sent, i) { assert Counted(s, sent, i); }
    forall x | x in sent ensures AboutOk(u, x) { assert AboutOk(s, x); }
  }

  lemma StepKeepsHistory(s: State, u: State, sent: seq<Msg>, ms: seq<Msg>)
    requires ObjectsOk(s) && HistoryOk(s, sent) && Sends(s, u, ms)
    ensures HistoryOk(u, sent + ms)
  {
    if o :| Adds(s, u, o) && ms == [Push(o.home, o.d)] {
      AddedInHistory(s, u, sent, o);
    } else if i :| Detaches(s, u.(pc := s.pc), i) && ms == [Remove(s.objects[i].home, s.objects[i].d)] {
      DetachedInHistory(s, u, sent, i);
    } else if k :| ms == [Expire(k)] && SameObjects(s, u) {
      ExpireInHistory(s, u, sent, k);
    } else {
      assert sent + ms == sent;
      NothingInHistory(s, u, sent);
    }
  }

  lemma {:induction false} RunKeepsHistory(start: Timespec, ls: seq<Label>)
    ensures HistoryOk(Run(start, ls), Sent(start, ls))
  {
    if ls != [] {
      var p, l := ls[..|ls| - 1], ls[|ls| - 1];
      RunKeepsHistory(start, p);
      RunKeepsLife(start, p);
      if Enabled(Run(start, p), l) {
        StepMoves(Run(start, p), l);
        StepKeepsHistory(Run(start, p), Run(start, ls), Sent(start, p), SentBy(Run(start, p), l));
      } else {
        assert Sent(start, ls) == Sent(start, p);
      }
    }
  }

  // ----- what it means -----

  /** Over a whole run: every delegate that was made was pushed exactly once;
      exactly those that nobody waits for any more were removed, once; the Push
      came first, and both speak of the same container and due time. */
  lemma OnePushAndOneRemove(start: Timespec, ls: seq<Label>, i: nat)
    requires i < Run(start, ls).nextId
    ensures var s, sent := Run(start, ls), Sent(start, ls);
      && PushesOf(sent, i) == 1
      && RemovesOf(sent, i) == (if InUse(s, i) then 0 else 1)
      && forall a, b :: 0 <= a < b < |sent| && !sent[a].Expire? && !sent[b].Expire? && sent[a].d.id == sent[b].d.id == i
           ==> sent[a].Push? && sent[b] == Remove(sent[a].c, sent[a].d)
  {
    RunKeepsHistory(start, ls);
    var s, sent := Run(start, ls), Sent(start, ls);
    assert Counted(s, sent, i);
    forall a, b | 0 <= a < b < |sent| && !sent[a].Expire? && !sent[b].Expire? && sent[a].d.id == sent[b].d.id == i
      ensures sent[a].Push? && sent[b] == Remove(sent[a].c, sent[a].d)
    {
      assert Follows(sent[a], sent[b]);
    }
  }

  lemma RunMoves(start: Timespec, ls: seq<Label>, l: Label)
    requires Enabled(Run(start, ls), l)
    ensures Step(Run(start, ls), l).queue == LeftOf(Run(start, ls), l) + SentBy(Run(start, ls), l)
  {
    RunKeepsLife(start, ls);
    StepMoves(Run(start, ls), l);
  }

  lemma TakenAndLeft(s: State, l: Label)
    requires Enabled(s, l)
    ensures s.queue == TakenBy(s, l) + LeftOf(s, l)
  {
  }

  lemma Regroup<T>(fetched: seq<T>, taken: seq<T>, left: seq<T>, sent: seq<T>)
    ensures fetched + (taken + left) + sent == fetched + taken + (left + sent)
  {
  }

  /** The message thread gets the messages in the order in which they were sent,
      every one of them once. */
  lemma {:induction false} MessagesAreFifo(start: Timespec, ls: seq<Label>)
    ensures Sent(start, ls) == Fetched(start, ls) + Run(start, ls).queue
  {
    if ls != [] {
      var p, l := ls[..|ls| - 1], ls[|ls| - 1];
      MessagesAreFifo(start, p);
      if Enabled(Run(start, p), l) {
        RunMoves(start, p, l);
        var s := Run(start, p);
        TakenAndLeft(s, l);
        Regroup(Fetched(start, p), TakenBy(s, l), LeftOf(s, l), SentBy(s, l));
      }
    }
  }
}
