/** That responses are delivered: what reaches a request is what it ends with. */
module NiDeliveries {
  import opened NiProtocol

  /** How a request ends whose user's response is `resp`. */
  function Ending(x: Session, resp: Response): Disposal {
    Disposal(x.raw, x.own, if resp == Ignore then Ignored else Answered(resp))
  }

  /** The session holds request `n`, with the response for its thread to take. */
  ghost predicate Awaits(s: State, emergency: bool, n: nat, resp: Response) {
    var x := Of(s, emergency);
    x.raw != 0 && x.own == n && x.respRecvd && x.resp == resp && x.waiting > 0
  }

  /** A thread of the session can take it at once, and what that adds to the log. */
  lemma AwaitedIsTaken(s: State, emergency: bool, n: nat, resp: Response)
    requires Awaits(s, emergency, n, resp)
    ensures Enabled(s, Wake(emergency))
    ensures Step(s, Wake(emergency)).log == s.log + [Ending(Of(s, emergency), resp)]
  {
  }

  /** The session that holds request `n`. */
  predicate Holds(s: State, emergency: bool, n: nat) {
    Of(s, emergency).raw != 0 && Of(s, emergency).own == n
  }

  /** A response that reaches a request is there for its thread; and if it accepts
      an emergency request, an ordinary one that is held is to be ignored. */
  lemma ReachingIsStored(s: State, id: nat, n: nat, resp: Response)
    requires Inv(s) && Reaches(s, id, n)
    ensures var u, es := Step(s, Respond(id, resp)), Holds(s, true, n);
      && Awaits(u, es, n, resp) && u.log == s.log
      && Of(u, es).raw == Of(s, es).raw
      && (es && resp == Accept && s.session.raw != 0 ==> Awaits(u, false, s.session.own, Ignore))
      && (es && !(resp == Accept && s.session.raw != 0) ==> u.session == s.session)
      && (!es ==> u.sessionEs == s.sessionEs)
  {
  }

  /** What can come between a response and its thread: another response to the same
      request, an accepted emergency request, a restart, or a timeout. */
  predicate Disturbs(s: State, l: Label, emergency: bool, n: nat) {
    || (l.Respond? && Reaches(s, l.id, n))
    || (!emergency && Outranked(s, l, n))
    || l == Restart || l == Timeout(emergency)
  }

  lemma StaysAwaited(s: State, l: Label, emergency: bool, n: nat, resp: Response)
    requires Inv(s) && Awaits(s, emergency, n, resp) && Enabled(s, l)
    requires !Disturbs(s, l, emergency, n) && l != Wake(emergency)
    ensures Awaits(Step(s, l), emergency, n, resp) && Of(Step(s, l), emergency).raw == Of(s, emergency).raw
  {
  }

  /** After `ls` nothing comes between, and no thread of the session has woken. */
  ghost predicate Undisturbed(garbage: Response, ls: seq<Label>, more: seq<Label>, emergency: bool, n: nat) {
    forall j :: 0 <= j < |more| ==> LeavesAlone(After(garbage, ls + more[..j]), more[j], emergency, n)
  }

  predicate LeavesAlone(s: State, l: Label, emergency: bool, n: nat) {
    Enabled(s, l) ==> !Disturbs(s, l, emergency, n) && l != Wake(emergency)
  }

  lemma UndisturbedBefore(garbage: Response, ls: seq<Label>, more: seq<Label>, emergency: bool, n: nat)
    requires more != [] && Undisturbed(garbage, ls, more, emergency, n)
    ensures Undisturbed(garbage, ls, more[..|more| - 1], emergency, n)
    ensures LeavesAlone(After(garbage, ls + more[..|more| - 1]), more[|more| - 1], emergency, n)
  {
    var p := more[..|more| - 1];
    forall j | 0 <= j < |p| ensures LeavesAlone(After(garbage, ls + p[..j]), p[j], emergency, n) {
      assert p[..j] == more[..j] && p[j] == more[j];
    }
  }

  /** It is still there, for the same raw request. */
  ghost predicate Waits(garbage: Response, ls: seq<Label>, emergency: bool, n: nat, resp: Response, raw: nat) {
    Awaits(After(garbage, ls), emergency, n, resp) && Of(After(garbage, ls), emergency).raw == raw
  }

  lemma LastStaysAwaited(garbage: Response, ls: seq<Label>, l: Label, emergency: bool, n: nat, resp: Response, raw: nat)
    requires Waits(garbage, ls, emergency, n, resp, raw) && LeavesAlone(After(garbage, ls), l, emergency, n)
    ensures Waits(garbage, ls + [l], emergency, n, resp, raw)
  {
    AfterGrows(garbage, ls, l);
    RunKeeps(garbage, ls);
    if Enabled(After(garbage, ls), l) {
      StaysAwaited(After(garbage, ls), l, emergency, n, resp);
    }
  }

  lemma {:induction false} RunStaysAwaited(garbage: Response, ls: seq<Label>, more: seq<Label>,
                                           emergency: bool, n: nat, resp: Response, raw: nat)
    requires Waits(garbage, ls, emergency, n, resp, raw) && Undisturbed(garbage, ls, more, emergency, n)
    ensures Waits(garbage, ls + more, emergency, n, resp, raw)
    decreases |more|
  {
    if more == [] {
      assert ls + more == ls;
    } else {
      var p, l := more[..|more| - 1], more[|more| - 1];
      UndisturbedBefore(garbage, ls, more, emergency, n);
      RunStaysAwaited(garbage, ls, p, emergency, n, resp, raw);
      LastStaysAwaited(garbage, ls + p, l, emergency, n, resp, raw);
      assert ls + more == (ls + p) + [l];
    }
  }

  /** Over every run: a response that reaches a request can be taken by a thread of
      its session at once, and still after anything else but what disturbs it; the
      request then ends with exactly that response. */
  lemma ResponsesAreDelivered(garbage: Response, ls: seq<Label>, id: nat, n: nat, resp: Response, more: seq<Label>)
    requires Reaches(After(garbage, ls), id, n)
    requires Undisturbed(garbage, ls + [Respond(id, resp)], more, Holds(After(garbage, ls), true, n), n)
    ensures var s, u := After(garbage, ls), After(garbage, ls + [Respond(id, resp)] + more);
      var es := Holds(s, true, n);
      && Enabled(u, Wake(es))
      && Step(u, Wake(es)).log == u.log + [Ending(Of(s, es), resp)]
  {
    var es, l := Holds(After(garbage, ls), true, n), Respond(id, resp);
    RunKeeps(garbage, ls);
    AfterGrows(garbage, ls, l);
    ReachingIsStored(After(garbage, ls), id, n, resp);
    RunStaysAwaited(garbage, ls + [l], more, es, n, resp, Of(After(garbage, ls), es).raw);
    AwaitedIsTaken(After(garbage, ls + [l] + more), es, n, resp);
  }

  /** Over every run: when the user accepts an emergency request, the ordinary one
      that is held ends ignored, unless something disturbs that too. */
  lemma AcceptedEmergencyIgnoresOther(garbage: Response, ls: seq<Label>, id: nat, n: nat, more: seq<Label>)
    requires var s := After(garbage, ls); Reaches(s, id, n) && Holds(s, true, n) && s.session.raw != 0
    requires Undisturbed(garbage, ls + [Respond(id, Accept)], more, false, After(garbage, ls).session.own)
    ensures var s, u := After(garbage, ls), After(garbage, ls + [Respond(id, Accept)] + more);
      && Enabled(u, Wake(false))
      && Step(u, Wake(false)).log == u.log + [Disposal(s.session.raw, s.session.own, Ignored)]
  {
    var s, l := After(garbage, ls), Respond(id, Accept);
    RunKeeps(garbage, ls);
    AfterGrows(garbage, ls, l);
    ReachingIsStored(s, id, n, Accept);
    RunStaysAwaited(garbage, ls + [l], more, false, s.session.own, Ignore, s.session.raw);
    AwaitedIsTaken(After(garbage, ls + [l] + more), false, s.session.own, Ignore);
  }

  /** A response that reaches no request changes nothing. */
  lemma UnreachedChangesNothing(s: State, id: nat, resp: Response)
    requires forall n :: !Reaches(s, id, n)
    ensures Step(s, Respond(id, resp)) == s
  {
    assert !Reaches(s, id, s.sessionEs.own) && !Reaches(s, id, s.session.own);
  }

  /** A restart frees whatever is held, the emergency request first, answers nobody,
      and lets the waiting threads go; they add nothing more. */
  lemma RestartFreesAll(s: State, emergency: bool)
    requires Inv(s)
    ensures var u, x := Step(s, Restart), Of(s, emergency);
      && u.log == s.log + (if s.sessionEs.raw != 0 then [Disposal(s.sessionEs.raw, s.sessionEs.own, Reset)] else [])
                        + (if s.session.raw != 0 then [Disposal(s.session.raw, s.session.own, Reset)] else [])
      && Of(u, emergency).raw == 0 && Of(u, emergency).own == x.own && Of(u, emergency).waiting == x.waiting
      && (x.raw != 0 ==> Enabled(u, Wake(emergency)) && Step(u, Wake(emergency)).log == u.log)
  {
  }

  // ----- the threads -----

  /** How many threads a session has started, and how many have come to their end. */
  function Begun(garbage: Response, ls: seq<Label>, emergency: bool): nat {
    if ls == [] then 0
    else
      var s, l := After(garbage, ls[..|ls| - 1]), ls[|ls| - 1];
      Begun(garbage, ls[..|ls| - 1], emergency)
        + if l.Request? && l.emergency == emergency && s.sessionEs.raw == 0 && (emergency || s.session.raw == 0) then 1 else 0
  }

  function Ended(garbage: Response, ls: seq<Label>, emergency: bool): nat {
    if ls == [] then 0
    else
      var s, l := After(garbage, ls[..|ls| - 1]), ls[|ls| - 1];
      Ended(garbage, ls[..|ls| - 1], emergency) + if l == Clear(emergency) && Of(s, emergency).clearing > 0 then 1 else 0
  }

  lemma ThreadStep(s: State, l: Label, emergency: bool)
    requires Enabled(s, l)
    ensures var x, x' := Of(s, emergency), Of(Step(s, l), emergency);
      x'.waiting + x'.clearing == x.waiting + x.clearing
        + (if l.Request? && l.emergency == emergency && s.sessionEs.raw == 0 && (emergency || s.session.raw == 0) then 1 else 0)
        - (if l == Clear(emergency) && x.clearing > 0 then 1 else 0)
  {
  }

  /** Over every run: each admission starts a thread, and every thread is waiting,
      about to clear, or has come to its end. */
  lemma {:induction false} ThreadsBalance(garbage: Response, ls: seq<Label>, emergency: bool)
    ensures var x := Of(After(garbage, ls), emergency);
      Begun(garbage, ls, emergency) == x.waiting + x.clearing + Ended(garbage, ls, emergency)
  {
    if ls != [] {
      var s, l := After(garbage, ls[..|ls| - 1]), ls[|ls| - 1];
      ThreadsBalance(garbage, ls[..|ls| - 1], emergency);
      if Enabled(s, l) {
        ThreadStep(s, l, emergency);
      }
    }
  }

  /** A thread that takes its answer, or runs into its timeout, goes on to clear the
      number; its session is free again, with the flag down. */
  lemma ThreadsMoveOn(s: State, l: Label, emergency: bool)
    requires Enabled(s, l) && (l == Wake(emergency) || l == Timeout(emergency))
    ensures var x, x' := Of(s, emergency), Of(Step(s, l), emergency);
      x'.waiting == x.waiting - 1 && x'.clearing == x.clearing + 1 && x'.raw == 0 && !x'.respRecvd
    ensures Of(Step(s, l), !emergency) == Of(s, !emergency)
  {
  }
}
