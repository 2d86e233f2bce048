/** The handlers of network-initiated requests on their two session records. */
module LocEngNis {
  import opened NiProtocol
  import opened NiThreads

  class NiSession {
    var rawRequest: nat
    var resp: Response
    var respRecvd: bool
    var reqID: nat
    var waiting: nat     // threads that have not locked the session for the last time
    var clearing: nat    // threads past that
    var own: nat         // the number of the request last admitted; only recorded

    ghost function Value(): Session
      reads this
    {
      Session(rawRequest, resp, respRecvd, reqID, own, waiting, clearing)
    }

    constructor (garbage: Response)
      ensures Value() == Fresh(garbage).session
    {
      rawRequest, resp, respRecvd, reqID, waiting, clearing, own := 0, garbage, false, 0, 0, 0, 0;
    }

    /** Gives the waiting thread an answer and signals it. */
    method Tell(user: Response)
      modifies this
      ensures Value() == Told(old(Value()), user)
    {
      resp := user;
      respRecvd := true;
    }
  }

  class LocEngNi {
    const session: NiSession
    const sessionEs: NiSession
    var reqIDCounter: nat
    var disposals: seq<Disposal>  // what was freed or sent to the adapter, in order

    ghost predicate Valid() {
      session != sessionEs
    }

    ghost function Value(): State
      reads this, session, sessionEs
    {
      State(session.Value(), sessionEs.Value(), reqIDCounter, disposals)
    }

    constructor (garbage: Response)
      ensures Valid() && fresh(session) && fresh(sessionEs) && Value() == Fresh(garbage)
    {
      session := new NiSession(garbage);
      sessionEs := new NiSession(garbage);
      reqIDCounter, disposals := 0, [];
    }

    function Pick(emergency: bool): NiSession {
      if emergency then sessionEs else session
    }

    method RequestHandler(emergency: bool, passThrough: nat)
      requires Valid()
      modifies this, session, sessionEs
      ensures Value() == HandleRequest(old(Value()), emergency, passThrough)
    {
      var inProgress := if emergency then sessionEs.rawRequest != 0
                        else session.rawRequest != 0 || sessionEs.rawRequest != 0;
      if inProgress {
        if passThrough != 0 {
          disposals := disposals + [Disposal(passThrough, 0, Rejected)];
        }
        return;
      }
      var pSession := Pick(emergency);
      pSession.rawRequest := passThrough;
      reqIDCounter := reqIDCounter + 1;
      pSession.reqID := reqIDCounter;
      pSession.own := reqIDCounter;
      pSession.waiting := pSession.waiting + 1;
    }

    method Respond(notifId: nat, user: Response)
      requires Valid()
      modifies session, sessionEs
      ensures Value() == HandleRespond(old(Value()), notifId, user)
    {
      if notifId == sessionEs.reqID && sessionEs.rawRequest != 0 {
        if user == Accept && session.rawRequest != 0 {
          session.Tell(Ignore);
        }
        sessionEs.Tell(user);
      } else if notifId == session.reqID && session.rawRequest != 0 {
        session.Tell(user);
      }
    }

    method ResetOne(emergency: bool)
      requires Valid()
      modifies this, session, sessionEs
      ensures Value() == ResetSession(old(Value()), emergency)
    {
      var pSession := Pick(emergency);
      if pSession.rawRequest != 0 {
        disposals := disposals + [Disposal(pSession.rawRequest, pSession.own, Reset)];
        pSession.rawRequest := 0;
        pSession.respRecvd := true;
      }
    }

    method ResetOnEngineRestart()
      requires Valid()
      modifies this, session, sessionEs
      ensures Value() == Step(old(Value()), Restart)
    {
      ResetOne(true);
      ResetOne(false);
    }

    /** What a thread does once it stops waiting, up to its unlock. */
    method ThreadFinish(emergency: bool, timedOut: bool)
      requires Valid() && Pick(emergency).waiting > 0 && (timedOut || Pick(emergency).respRecvd)
      modifies this, session, sessionEs
      ensures Value() == Step(old(Value()), if timedOut then Timeout(emergency) else Wake(emergency))
    {
      var pSession := Pick(emergency);
      if timedOut {
        pSession.resp := NoResp;
      }
      pSession.respRecvd := false;
      if pSession.rawRequest != 0 {
        var fate := if pSession.resp != Ignore then Answered(pSession.resp) else Ignored;
        disposals := disposals + [Disposal(pSession.rawRequest, pSession.own, fate)];
        pSession.rawRequest := 0;
      }
      pSession.waiting := pSession.waiting - 1;
      pSession.clearing := pSession.clearing + 1;
    }

    method ThreadClear(emergency: bool)
      requires Valid() && Pick(emergency).clearing > 0
      modifies session, sessionEs
      ensures Value() == Step(old(Value()), Clear(emergency))
    {
      var pSession := Pick(emergency);
      pSession.reqID := 0;
      pSession.clearing := pSession.clearing - 1;
    }

    /** The handler or thread that a label stands for does its work. */
    method Perform(l: Label)
      requires Valid() && Enabled(Value(), l)
      modifies this, session, sessionEs
      ensures Value() == Step(old(Value()), l)
    {
      match l
      case Request(e, raw) => RequestHandler(e, raw);
      case Respond(id, resp) => Respond(id, resp);
      case Restart => ResetOnEngineRestart();
      case Wake(e) => ThreadFinish(e, false);
      case Timeout(e) => ThreadFinish(e, true);
      case Clear(e) => ThreadClear(e);
    }

    /** What may happen to another thread's label while this one waits. */
    method PerformForeign(emergency: bool, l: Label)
      requires Valid()
      modifies this, session, sessionEs
      ensures Value() == OtherDoes(old(Value()), emergency, l)
    {
      var x := Pick(emergency);
      var mine := (l.Wake? || l.Timeout?) && l.emergency == emergency && x.waiting <= 1;
      var can := match l
        case Wake(e) => Pick(e).waiting > 0 && Pick(e).respRecvd
        case Timeout(e) => Pick(e).waiting > 0
        case Clear(e) => Pick(e).clearing > 0
        case _ => true;
      if can && !mine {
        Perform(l);
      }
    }

    /** The lock is given up for a timed wait. */
    method WaitOnce(emergency: bool, others: seq<Label>)
      requires Valid()
      modifies this, session, sessionEs
      ensures Value() == OthersDo(old(Value()), emergency, others)
    {
      var i := 0;
      while i < |others|
        invariant 0 <= i <= |others|
        invariant OthersDo(Value(), emergency, others[i..]) == OthersDo(old(Value()), emergency, others)
      {
        assert others[i..][1..] == others[i + 1..];
        PerformForeign(emergency, others[i]);
        i := i + 1;
      }
    }

    /** `ni_thread_proc` up to its unlock: tests the flag, waits, and finishes once
        the flag is set or a wait has timed out.  `waits` is what the waits bring;
        the thread is still waiting if they run out. */
    method ThreadProc(emergency: bool, waits: seq<Wait>) returns (finished: bool)
      requires Valid() && Pick(emergency).waiting > 0
      modifies this, session, sessionEs
      ensures Value() == ThreadRun(old(Value()), emergency, waits)
      ensures finished <==> Finishes(old(Value()), emergency, waits)
    {
      var i, timedOut := 0, false;
      ghost var goal, ends := ThreadRun(Value(), emergency, waits), Finishes(Value(), emergency, waits);
      while !Pick(emergency).respRecvd
        invariant 0 <= i <= |waits| && Of(Value(), emergency).waiting > 0
        invariant ThreadRun(Value(), emergency, waits[i..]) == goal
        invariant Finishes(Value(), emergency, waits[i..]) == ends
        decreases |waits| - i
      {
        if i == |waits| {
          return false;
        }
        assert waits[i..][0] == waits[i] && waits[i..][1..] == waits[i + 1..];
        WaitOnce(emergency, waits[i].others);
        if waits[i].timedOut {
          timedOut := true;
          break;
        }
        i := i + 1;
      }
      ThreadFinish(emergency, timedOut);
      finished := true;
    }
  }
}
