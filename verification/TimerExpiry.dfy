/** What an Expire message takes out of a heap over runs: the same as if nothing
    happened beside it, although other threads go on meanwhile. */
module TimerExpiry {
  import opened Wrappers
  import opened Rankables
  import opened TimerSystem
  import opened TimerLifetime
  import opened TimerWakeup
  import opened TimerShortfalls
  import opened ExpireLoop
  import H = HeapTree

  /** The message thread is at work on an Expire for container `k`. */
  predicate Expiring(pc: Pc, k: Kind) {
    (pc.Popped? || pc.Stopped? || pc.Scan?) && pc.c == k
  }

  /** The delegate that a step pops, if it does. */
  function PoppedBy(s: State, l: Label): seq<Delegate>
    requires Enabled(s, l)
  {
    var u := Step(s, l);
    if (l.Fetch? || l.MsgStep?) && u.pc.Popped? then [u.pc.d] else []
  }

  /** All that are popped in the course of `ls`, after `pre`. */
  function Pops(start: Timespec, pre: seq<Label>, ls: seq<Label>): seq<Delegate> {
    if ls == [] then []
    else
      var p, l := ls[..|ls| - 1], ls[|ls| - 1];
      var s := Run(start, pre + p);
      Pops(start, pre, p) + if Enabled(s, l) then PoppedBy(s, l) else []
  }

  /** `ls` begins with the fetch of an Expire for `k`, and goes on, with whatever
      other threads do, as long as the message thread is at work on it. */
  ghost predicate Processes(start: Timespec, pre: seq<Label>, ls: seq<Label>, k: Kind) {
    && ls != [] && ls[0] == Fetch && Enabled(Run(start, pre), Fetch) && Run(start, pre).queue[0] == Expire(k)
    && forall j :: 1 <= j < |ls| ==> Expiring(Run(start, pre + ls[..j]).pc, k)
  }

  /** What has been popped, and what is yet to come, of a message that found the
      heap `t` and the time `now`. */
  ghost predicate OnCourse(s: State, k: Kind, popped: seq<Delegate>, t: H.Tree, now: Timespec) {
    if Expiring(s.pc, k) then
      && s.pc.now == now
      && popped + Drained(s.Heap(k), now) == ExpiredBy(t, now) && Kept(s.Heap(k), now) == KeptBy(t, now)
    else popped == ExpiredBy(t, now) && s.Heap(k) == KeptBy(t, now)
  }

  lemma FetchIsOnCourse(s: State, k: Kind)
    requires Enabled(s, Fetch) && s.queue[0] == Expire(k)
    ensures OnCourse(Step(s, Fetch), k, PoppedBy(s, Fetch), s.Heap(k), s.clock)
  {
  }

  lemma ScanStaysOnCourse(s: State, k: Kind, popped: seq<Delegate>, t: H.Tree, now: Timespec)
    requires s.pc.Scan? && s.pc.c == k && OnCourse(s, k, popped, t, now)
    ensures OnCourse(MsgEffect(s), k, popped + PoppedBy(s, MsgStep), t, now)
  {
    DrainStep(s.Heap(k), now);
    if TakesTop(s.Heap(k), now) {
      var d := s.Heap(k).data;
      assert popped + ([d] + Drained(H.Pop(s.Heap(k)), now)) == (popped + [d]) + Drained(H.Pop(s.Heap(k)), now);
    } else {
      UpdateShape(s, k, None, None);
      assert popped + [] == popped;
    }
  }

  /** Any other step leaves the heap alone, and the message thread at work. */
  lemma OtherStepsLeaveHeap(s: State, l: Label, k: Kind)
    requires Enabled(s, l) && Expiring(s.pc, k) && !(l == MsgStep && s.pc.Scan?)
    ensures var u := Step(s, l);
      u.Heap(k) == s.Heap(k) && Expiring(u.pc, k) && u.pc.now == s.pc.now && PoppedBy(s, l) == []
  {
    match l
    case MsgStep =>
      if s.pc.Popped? {
        PoppedKeepsContainers(s);
      }
    case Stop(c) => StopIsQuiet(s, c, false);
    case Destroy(c) => StopIsQuiet(s, c, false);
    case _ =>
  }

  lemma StepStaysOnCourse(s: State, l: Label, k: Kind, popped: seq<Delegate>, t: H.Tree, now: Timespec)
    requires Enabled(s, l) && Expiring(s.pc, k) && OnCourse(s, k, popped, t, now)
    ensures OnCourse(Step(s, l), k, popped + PoppedBy(s, l), t, now)
  {
    if l == MsgStep && s.pc.Scan? {
      ScanStaysOnCourse(s, k, popped, t, now);
    } else {
      OtherStepsLeaveHeap(s, l, k);
      assert popped + [] == popped;
    }
  }

  lemma RunSnocAfter(start: Timespec, pre: seq<Label>, ls: seq<Label>)
    requires ls != []
    ensures var s, l := Run(start, pre + ls[..|ls| - 1]), ls[|ls| - 1];
      Run(start, pre + ls) == if Enabled(s, l) then Step(s, l) else s
  {
    assert (pre + ls)[..|pre + ls| - 1] == pre + ls[..|ls| - 1];
  }

  lemma ProcessesBefore(start: Timespec, pre: seq<Label>, ls: seq<Label>, k: Kind)
    requires Processes(start, pre, ls, k) && |ls| > 1
    ensures Processes(start, pre, ls[..|ls| - 1], k) && Expiring(Run(start, pre + ls[..|ls| - 1]).pc, k)
  {
    var p := ls[..|ls| - 1];
    forall j | 1 <= j < |p| ensures Expiring(Run(start, pre + p[..j]).pc, k) {
      assert p[..j] == ls[..j];
    }
  }

  /** Over every run, as far as the message has been processed. */
  lemma {:induction false} ProcessingIsOnCourse(start: Timespec, pre: seq<Label>, ls: seq<Label>, k: Kind)
    requires Processes(start, pre, ls, k)
    ensures var s0 := Run(start, pre);
      OnCourse(Run(start, pre + ls), k, Pops(start, pre, ls), s0.Heap(k), s0.clock)
    decreases |ls|
  {
    var s0, p, l := Run(start, pre), ls[..|ls| - 1], ls[|ls| - 1];
    RunSnocAfter(start, pre, ls);
    if |ls| == 1 {
      FirstPop(start, pre, ls);
      FetchIsOnCourse(s0, k);
    } else {
      ProcessesBefore(start, pre, ls, k);
      ProcessingIsOnCourse(start, pre, p, k);
      var s := Run(start, pre + p);
      if Enabled(s, l) {
        StepStaysOnCourse(s, l, k, Pops(start, pre, p), s0.Heap(k), s0.clock);
      } else {
        assert Pops(start, pre, ls) == Pops(start, pre, p);
      }
    }
  }

  lemma FirstPop(start: Timespec, pre: seq<Label>, ls: seq<Label>)
    requires |ls| == 1 && ls[0] == Fetch && Enabled(Run(start, pre), Fetch)
    ensures Run(start, pre + ls[..0]) == Run(start, pre)
    ensures Pops(start, pre, ls) == PoppedBy(Run(start, pre), Fetch)
  {
    assert pre + ls[..0] == pre;
    assert Pops(start, pre, ls[..0]) == [];
  }

  /** Over every run: once the message thread is done with an Expire, it has popped
      exactly the timers that the message takes out of the heap and at the time it
      found, in that order, and left the heap without them. */
  lemma ExpireTakesExactly(start: Timespec, pre: seq<Label>, ls: seq<Label>, k: Kind)
    requires Processes(start, pre, ls, k) && !Expiring(Run(start, pre + ls).pc, k)
    ensures var s0 := Run(start, pre);
      && Pops(start, pre, ls) == ExpiredBy(s0.Heap(k), s0.clock)
      && Run(start, pre + ls).Heap(k) == KeptBy(s0.Heap(k), s0.clock)
  {
    ProcessingIsOnCourse(start, pre, ls, k);
  }

  /** So over every run: none of the timers that an Expire pops is early exactly if
      the top it finds is not, and no timer of the present second is still to
      come. */
  lemma {:induction false} NoneIsEarlyExactly(start: Timespec, pre: seq<Label>, ls: seq<Label>, k: Kind)
    requires start.Normalised() && Processes(start, pre, ls, k) && !Expiring(Run(start, pre + ls).pc, k)
    requires Run(start, pre).Heap(k).Node?
    ensures var s0 := Run(start, pre);
      (forall d :: d in Pops(start, pre, ls) ==> !IsEarly(d, s0.clock)) <==>
        && !IsEarly(s0.Heap(k).data, s0.clock)
        && forall d :: InHeap(s0, k, d) && d.due.sec == s0.clock.sec ==> d.due.nsec <= s0.clock.nsec
  {
    ExpireTakesExactly(start, pre, ls, k);
    RunKeepsLife(start, pre);
    RunKeepsDue(start, pre);
    NoneIsEarlyIn(Run(start, pre), k);
  }

  lemma NoneIsEarlyIn(s: State, k: Kind)
    requires HeapOk(s, k) && DueOk(s) && s.Heap(k).Node?
    ensures (forall d :: d in ExpiredBy(s.Heap(k), s.clock) ==> !IsEarly(d, s.clock)) <==>
      && !IsEarly(s.Heap(k).data, s.clock)
      && forall d :: InHeap(s, k, d) && d.due.sec == s.clock.sec ==> d.due.nsec <= s.clock.nsec
  {
    HeapIsNormalised(s, k);
    EarlyExpiryExactly(s.Heap(k), s.clock);
    assert forall d :: InHeap(s, k, d) <==> d in H.Elements(s.Heap(k));
  }

  lemma HeapIsNormalised(s: State, k: Kind)
    requires HeapOk(s, k) && DueOk(s)
    ensures H.IsHeap(s.Heap(k)) && forall d :: d in H.Elements(s.Heap(k)) ==> d.due.Normalised()
  {
    forall d | d in H.Elements(s.Heap(k)) ensures d.due.Normalised() {
      assert InHeap(s, k, d) && LiveIn(s, k, d);
    }
  }

  /** Early by any number of milliseconds below a second, although the top is due:
      of two timers of one second, the later one is popped with the first. */
  lemma EarlyWithinSecond(a: nat, b: nat) returns (s: State)
    requires b < a < 1000
    ensures Reached(s) && s.pc.Popped? && s.pc.d.due.Nanos() == s.clock.Nanos() + (a - b) * 1_000_000
    ensures s.Live(s.pc.d) && s.objects[s.pc.d.id].client.Some?
  {
    WithinFirstSecond(a);
    WithinFirstSecond(b);
    var d, e := Delegate(0, Timespec(0, b * 1_000_000)), Delegate(1, Timespec(0, a * 1_000_000));
    TwoTimersAreReached(d, b, e, a);
    s := SecondIsPopped(d, e);
  }

  lemma SecondIsPopped(d: Delegate, e: Delegate) returns (s: State)
    requires Reached(TwoTimers(d, e)) && d.id == 0 && e.id == 1 && d.due.sec == e.due.sec == 0 && d.due.Normalised()
    ensures Reached(s) && s.pc == Popped(Sw, d.due, e) && s.clock == d.due
    ensures s.Live(e) && s.objects[1].client.Some?
  {
    s := Go(TwoTimers(d, e), Tick(d.due));
    s := ExpireIsSent(s, Sw);
    assert H.Pop(Single(e)) == H.Leaf;
    assert H.Pop(H.Node(d, 2, Single(e), H.Leaf)) == Single(e);
    s := TopExpires(s, d);
    s := Go(s, MsgStep);
  }
}
