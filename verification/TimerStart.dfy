/** Where every timer comes from: a start that its client made, for the container
    and the time that the start asked for. */
module TimerStarts {
  import opened Wrappers
  import opened Rankables
  import opened TimerSystem
  import opened TimerLifetime
  import opened TimerWakeup
  import H = HeapTree

  /** Label `j` is a start by client `c`, which had no timer then, for container `k`
      and the due time of `d`. */
  ghost predicate IsStart(start: Timespec, ls: seq<Label>, j: nat, c: nat, k: Kind, d: Delegate)
    requires j < |ls|
  {
    var s := Run(start, ls[..j]);
    && ls[j].Start? && Enabled(s, ls[j]) && ls[j].c == c && s.clients[c].timer.None?
    && (ls[j].wakeOnExpire <==> k == Hw)
    && d.due.Normalised() && d.due.Nanos() == s.clock.Nanos() + ls[j].ms * 1_000_000
  }

  ghost predicate HasStart(start: Timespec, ls: seq<Label>, c: nat, k: Kind, d: Delegate) {
    exists j: nat :: j < |ls| && IsStart(start, ls, j, c, k, d)
  }

  lemma StartStays(start: Timespec, ls: seq<Label>, l: Label, c: nat, k: Kind, d: Delegate)
    requires HasStart(start, ls, c, k, d)
    ensures HasStart(start, ls + [l], c, k, d)
  {
    var j: nat :| j < |ls| && IsStart(start, ls, j, c, k, d);
    assert (ls + [l])[..j] == ls[..j] && (ls + [l])[j] == ls[j];
    assert IsStart(start, ls + [l], j, c, k, d);
  }

  /** What a step makes of the objects: none but a start makes one, and none changes
      whose it is, where it belongs and when it is due. */
  ghost predicate SameOrigin(s: State, u: State, i: nat) {
    i in s.objects && i in u.objects
    && u.objects[i].d == s.objects[i].d && u.objects[i].home == s.objects[i].home
    && u.objects[i].owner == s.objects[i].owner
  }

  lemma StartMakes(s: State, l: Label, i: nat)
    requires l.Start? && Enabled(s, l) && s.clock.Normalised() && i in Step(s, l).objects
    ensures var u := Step(s, l); var o := u.objects[i];
      SameOrigin(s, u, i) ||
      (&& s.clients[l.c].timer.None? && o.owner == l.c && (l.wakeOnExpire <==> o.home == Hw)
       && o.d.due.Normalised() && o.d.due.Nanos() == s.clock.Nanos() + l.ms * 1_000_000)
  {
    FutureTimeIsExact(s.clock, l.ms);
  }

  lemma OthersMakeNone(s: State, l: Label, i: nat)
    requires LifeInv(s) && !l.Start? && Enabled(s, l) && i in Step(s, l).objects
    ensures SameOrigin(s, Step(s, l), i)
  {
    match l
    case Stop(c) => StopShape(s, c, false);
    case Destroy(c) => DestroyMakesNone(s, c);
    case Fetch => FetchMakesNone(s);
    case MsgStep => MsgStepMakesNone(s, i);
    case _ =>
  }

  lemma DestroyMakesNone(s: State, c: nat)
    requires LifeInv(s) && Enabled(s, Destroy(c))
    ensures forall i :: i in DestroyTimer(s, c).objects ==> SameOrigin(s, DestroyTimer(s, c), i)
  {
    StopShape(s, c, false);
  }

  lemma FetchMakesNone(s: State)
    requires Enabled(s, Fetch)
    ensures FetchMsg(s).objects == s.objects
  {
    match s.queue[0]
    case Push(_, _) => FetchPushShape(s);
    case Remove(_, _) => FetchRemoveForm(s);
    case Expire(k) => UpdateShape(s.(queue := s.queue[1..]), k, None, None);
  }

  lemma MsgStepMakesNone(s: State, i: nat)
    requires LifeInv(s) && s.pc != Idle && i in MsgEffect(s).objects
    ensures SameOrigin(s, MsgEffect(s), i)
  {
    match s.pc
    case Popped(_, _, _) =>
      PoppedForm(s);
      var client := s.objects[s.pc.d.id].client;
      if client.Some? {
        StopShape(s, client.value, true);
      }
    case Scan(k, _) => UpdateShape(s, k, None, None);
    case _ =>
  }

  ghost predicate Originates(start: Timespec, ls: seq<Label>, i: nat)
    requires i in Run(start, ls).objects
  {
    var o := Run(start, ls).objects[i];
    HasStart(start, ls, o.owner, o.home, o.d)
  }

  lemma LastOriginates(start: Timespec, ls: seq<Label>, l: Label, i: nat)
    requires start.Normalised() && Enabled(Run(start, ls), l) && i in Step(Run(start, ls), l).objects
    requires i in Run(start, ls).objects ==> Originates(start, ls, i)
    ensures var o := Step(Run(start, ls), l).objects[i]; HasStart(start, ls + [l], o.owner, o.home, o.d)
  {
    var s := Run(start, ls);
    var o := Step(s, l).objects[i];
    RunKeepsLife(start, ls);
    RunKeepsDue(start, ls);
    if l.Start? {
      StartMakes(s, l, i);
    } else {
      OthersMakeNone(s, l, i);
    }
    if SameOrigin(s, Step(s, l), i) {
      StartStays(start, ls, l, o.owner, o.home, o.d);
    } else {
      assert (ls + [l])[..|ls|] == ls && (ls + [l])[|ls|] == l;
      assert IsStart(start, ls + [l], |ls|, o.owner, o.home, o.d);
    }
  }

  /** Over every run, every delegate that exists comes from a start: by its owner,
      for the container it belongs to, and due exactly as long after that start. */
  lemma {:induction false} ObjectsComeFromStarts(start: Timespec, ls: seq<Label>, i: nat)
    requires start.Normalised() && i in Run(start, ls).objects
    ensures Originates(start, ls, i)
  {
    if ls != [] {
      var p, l := ls[..|ls| - 1], ls[|ls| - 1];
      assert ls == p + [l];
      if i in Run(start, p).objects {
        ObjectsComeFromStarts(start, p, i);
      }
      if Enabled(Run(start, p), l) {
        LastOriginates(start, p, l, i);
      } else {
        var o := Run(start, p).objects[i];
        StartStays(start, p, l, o.owner, o.home, o.d);
      }
    }
  }

  /** The container `k` has to do with `d`: it is in its heap, in a message for it,
      or was just popped from it. */
  ghost predicate IsAt(s: State, k: Kind, d: Delegate) {
    InHeap(s, k, d) || Push(k, d) in s.queue || Remove(k, d) in s.queue || (s.pc.Popped? && s.pc.c == k && s.pc.d == d)
  }

  /** Over every run: whatever a container has to do with is a delegate of its own
      kind, that a client asked for by a start: one that wakes the system up exactly
      if the container is the alarm clock's, and the given milliseconds before it is
      due. */
  lemma TimersComeFromStarts(start: Timespec, ls: seq<Label>, k: Kind, d: Delegate)
    requires start.Normalised() && IsAt(Run(start, ls), k, d)
    ensures var s := Run(start, ls);
      d.id in s.objects && s.objects[d.id].d == d && HasStart(start, ls, s.objects[d.id].owner, k, d)
  {
    var s := Run(start, ls);
    RunKeepsLife(start, ls);
    assert LiveIn(s, k, d) by {
      if Push(k, d) in s.queue {
        assert MsgOk(s, Push(k, d));
      } else if Remove(k, d) in s.queue {
        assert MsgOk(s, Remove(k, d));
      }
    }
    ObjectsComeFromStarts(start, ls, d.id);
  }

  // ----- what a client's call sends -----

  ghost predicate IsPushed(s: State, u: State, l: Label, d: Delegate)
    requires l.Start?
  {
    && u.queue == s.queue + [Push(if l.wakeOnExpire then Hw else Sw, d)]
    && d.id !in s.objects && l.c in u.clients && u.clients[l.c].timer == Some(d.id)
    && d.due.Nanos() == s.clock.Nanos() + l.ms * 1_000_000
  }

  /** A start of a client without a timer sends one Push, for a new delegate that is
      then its timer; with one it does nothing. */
  lemma StartSendsPush(start: Timespec, ls: seq<Label>, l: Label) returns (d: Delegate)
    requires start.Normalised() && l.Start? && Enabled(Run(start, ls), l)
    ensures var s, u := Run(start, ls), Run(start, ls + [l]);
      if s.clients[l.c].timer.Some? then u == s
      else IsPushed(s, u, l, d)
  {
    assert (ls + [l])[..|ls|] == ls && (ls + [l])[|ls|] == l;
    RunKeepsLife(start, ls);
    RunKeepsDue(start, ls);
    d := Delegate(0, start);
    if Run(start, ls).clients[l.c].timer.None? {
      d := StartPushes(Run(start, ls), l);
    }
  }

  lemma StartPushes(s: State, l: Label) returns (d: Delegate)
    requires ObjectsOk(s) && s.clock.Normalised() && l.Start? && Enabled(s, l) && s.clients[l.c].timer.None?
    ensures IsPushed(s, Step(s, l), l, d)
  {
    FutureTimeIsExact(s.clock, l.ms);
    d := Delegate(s.nextId, FutureTime(s.clock, l.ms));
    assert d.id in s.objects ==> ObjectOk(s, d.id);
  }

  /** A stop sends one Remove, for the client's own timer, to the container that it
      was pushed to; without a timer it does nothing. */
  lemma StopSendsRemove(start: Timespec, ls: seq<Label>, c: nat)
    requires Enabled(Run(start, ls), Stop(c))
    ensures var s, u := Run(start, ls), Run(start, ls + [Stop(c)]);
      if s.clients[c].timer.None? then u == s
      else
        var i := s.clients[c].timer.value;
        && i in s.objects && u.queue == s.queue + [Remove(s.objects[i].home, s.objects[i].d)]
        && u.clients[c].timer == None
  {
    assert (ls + [Stop(c)])[..|ls|] == ls;
    RunKeepsLife(start, ls);
    StopShape(Run(start, ls), c, false);
  }

  /** A destruction does all that a stop does, and the client is gone. */
  lemma DestroyIsAStop(start: Timespec, ls: seq<Label>, c: nat)
    requires Enabled(Run(start, ls), Destroy(c))
    ensures var v, u := Run(start, ls + [Stop(c)]), Run(start, ls + [Destroy(c)]);
      && u.queue == v.queue && u.objects == v.objects && u.sw == v.sw && u.hw == v.hw
      && c in u.clients && !u.clients[c].alive && u.clients[c].timer == None
  {
    assert (ls + [Destroy(c)])[..|ls|] == ls && (ls + [Stop(c)])[..|ls|] == ls;
  }

  // ----- whom an expiry calls -----

  lemma StopCallsNobody(s: State, c: nat, e: nat)
    requires c in s.clients && e in s.clients
    ensures var u := StopTimer(CountStop(s, c, true), c);
      e in u.clients && u.clients[e].callbacks == s.clients[e].callbacks
  {
  }

  /** Over every run: a popped timer that was not stopped calls back the client that
      started it, by the next two steps of the message thread, and nobody else; one
      that was stopped calls nobody. */
  lemma ExpiryCallsTheStarter(start: Timespec, ls: seq<Label>, e: nat)
    requires start.Normalised() && Run(start, ls).pc.Popped? && e in Run(start, ls).clients
    ensures var s := Run(start, ls);
      && s.pc.d.id in s.objects
      && var o := s.objects[s.pc.d.id];
         && HasStart(start, ls, o.owner, s.pc.c, s.pc.d)
         && (o.client.None? ==> MsgEffect(s) == s.(pc := Scan(s.pc.c, s.pc.now)))
         && (o.client.Some? ==>
               var u := MsgEffect(s);
               && u.pc == Stopped(s.pc.c, s.pc.now, o.owner) && e in MsgEffect(u).clients
               && MsgEffect(u).clients[e].callbacks == s.clients[e].callbacks + if e == o.owner then 1 else 0)
  {
    var s := Run(start, ls);
    RunKeepsLife(start, ls);
    TimersComeFromStarts(start, ls, s.pc.c, s.pc.d);
    PoppedForm(s);
    assert ObjectOk(s, s.pc.d.id);
    if s.objects[s.pc.d.id].client.Some? {
      StopCallsNobody(s, s.objects[s.pc.d.id].owner, e);
    }
  }
}
