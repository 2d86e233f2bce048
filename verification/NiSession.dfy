/** Network-initiated location requests: the ordinary and the emergency session,
    their handlers, and the threads that wait for the user's answer.  A request
    is a number, 0 standing for the null pointer. */
module NiProtocol {

  datatype Response = Accept | Deny | NoResp | Ignore

  /** `own` is the number given to the request at its admission.  `reqID` starts
      as that number, until some thread of the session clears it.  `waiting` and
      `clearing` count the session's threads by how far they are. */
  datatype Session = Session(raw: nat, resp: Response, respRecvd: bool, reqID: nat, own: nat,
                             waiting: nat, clearing: nat)

  datatype Fate = Rejected | Reset | Ignored | Answered(resp: Response)

  /** A raw request was freed, or handed to the engine with an answer. */
  datatype Disposal = Disposal(raw: nat, own: nat, fate: Fate)

  datatype State = State(session: Session, sessionEs: Session, reqIDCounter: nat, log: seq<Disposal>)

  /** `Wake` and `Timeout` are a thread's work under the session's lock, `Clear`
      what it does after it. */
  datatype Label =
    | Request(emergency: bool, raw: nat)
    | Respond(id: nat, resp: Response)
    | Restart
    | Wake(emergency: bool)
    | Timeout(emergency: bool)
    | Clear(emergency: bool)

  function Fresh(resp: Response): State {
    var s := Session(0, resp, false, 0, 0, 0, 0);
    State(s, s, 0, [])
  }

  function Of(s: State, emergency: bool): Session {
    if emergency then s.sessionEs else s.session
  }

  function With(s: State, emergency: bool, x: Session): State {
    if emergency then s.(sessionEs := x) else s.(session := x)
  }

  // ----- the steps -----

  predicate Busy(s: State, emergency: bool) {
    s.sessionEs.raw != 0 || (!emergency && s.session.raw != 0)
  }

  function Told(x: Session, resp: Response): Session {
    x.(resp := resp, respRecvd := true)
  }

  function HandleRequest(s: State, emergency: bool, raw: nat): State {
    if Busy(s, emergency) then
      if raw != 0 then s.(log := s.log + [Disposal(raw, 0, Rejected)]) else s
    else
      var x, n := Of(s, emergency), s.reqIDCounter + 1;
      With(s.(reqIDCounter := n), emergency, x.(raw := raw, reqID := n, own := n, waiting := x.waiting + 1))
  }

  function HandleRespond(s: State, id: nat, resp: Response): State {
    if id == s.sessionEs.reqID && s.sessionEs.raw != 0 then
      s.(sessionEs := Told(s.sessionEs, resp),
         session := if resp == Accept && s.session.raw != 0 then Told(s.session, Ignore) else s.session)
    else if id == s.session.reqID && s.session.raw != 0 then
      s.(session := Told(s.session, resp))
    else s
  }

  function ResetSession(s: State, emergency: bool): State {
    var x := Of(s, emergency);
    if x.raw == 0 then s
    else With(s.(log := s.log + [Disposal(x.raw, x.own, Reset)]), emergency, x.(raw := 0, respRecvd := true))
  }

  function Outcome(resp: Response): Fate {
    if resp == Ignore then Ignored else Answered(resp)
  }

  function Finish(s: State, emergency: bool, resp: Response): State
    requires Of(s, emergency).waiting > 0
  {
    var x := Of(s, emergency);
    With(if x.raw == 0 then s else s.(log := s.log + [Disposal(x.raw, x.own, Outcome(resp))]), emergency,
         x.(raw := 0, resp := resp, respRecvd := false, waiting := x.waiting - 1, clearing := x.clearing + 1))
  }

  predicate Enabled(s: State, l: Label) {
    match l
    case Wake(e) => Of(s, e).waiting > 0 && Of(s, e).respRecvd
    case Timeout(e) => Of(s, e).waiting > 0
    case Clear(e) => Of(s, e).clearing > 0
    case _ => true
  }

  function Step(s: State, l: Label): State
    requires Enabled(s, l)
  {
    match l
    case Request(e, raw) => HandleRequest(s, e, raw)
    case Respond(id, resp) => HandleRespond(s, id, resp)
    case Restart => ResetSession(ResetSession(s, true), false)
    case Wake(e) => Finish(s, e, Of(s, e).resp)
    case Timeout(e) => Finish(s, e, NoResp)
    case Clear(e) => With(s, e, Of(s, e).(reqID := 0, clearing := Of(s, e).clearing - 1))
  }

  /** A run, from sessions whose `resp` field is still whatever it was; a label
      that is not enabled when its turn comes has no effect. */
  function After(garbage: Response, ls: seq<Label>): State {
    if ls == [] then Fresh(garbage)
    else
      var s, l := After(garbage, ls[..|ls| - 1]), ls[|ls| - 1];
      if Enabled(s, l) then Step(s, l) else s
  }

  // ----- every request is disposed of exactly once -----

  function Arrived(labels: seq<Label>): multiset<nat> {
    if labels == [] then multiset{}
    else
      var k := |labels| - 1;
      Arrived(labels[..k]) + (if labels[k].Request? && labels[k].raw != 0 then multiset{labels[k].raw} else multiset{})
  }

  function Disposed(log: seq<Disposal>): multiset<nat> {
    if log == [] then multiset{} else Disposed(log[..|log| - 1]) + multiset{log[|log| - 1].raw}
  }

  function Held(x: Session): multiset<nat> {
    if x.raw == 0 then multiset{} else multiset{x.raw}
  }

  lemma DisposedGrows(log: seq<Disposal>, d: Disposal)
    ensures Disposed(log + [d]) == Disposed(log) + multiset{d.raw}
  {
    assert (log + [d])[..|log|] == log;
  }

  function InPlay(s: State): multiset<nat> {
    Disposed(s.log) + Held(s.sessionEs) + Held(s.session)
  }

  lemma ResetKeepsInPlay(s: State, emergency: bool)
    ensures InPlay(ResetSession(s, emergency)) == InPlay(s)
  {
    var x := Of(s, emergency);
    DisposedGrows(s.log, Disposal(x.raw, x.own, Reset));
  }

  lemma FinishKeepsInPlay(s: State, emergency: bool, resp: Response)
    requires Of(s, emergency).waiting > 0
    ensures InPlay(Finish(s, emergency, resp)) == InPlay(s)
  {
    var x := Of(s, emergency);
    DisposedGrows(s.log, Disposal(x.raw, x.own, Outcome(resp)));
  }

  lemma RequestJoinsPlay(s: State, emergency: bool, raw: nat)
    ensures InPlay(HandleRequest(s, emergency, raw)) == InPlay(s) + if raw != 0 then multiset{raw} else multiset{}
  {
    DisposedGrows(s.log, Disposal(raw, 0, Rejected));
  }

  lemma RespondKeepsInPlay(s: State, id: nat, resp: Response)
    ensures InPlay(HandleRespond(s, id, resp)) == InPlay(s)
  {
  }

  lemma StepAccounts(s: State, l: Label)
    requires Enabled(s, l)
    ensures InPlay(Step(s, l)) == InPlay(s) + if l.Request? && l.raw != 0 then multiset{l.raw} else multiset{}
  {
    match l
    case Request(e, raw) =>
      RequestJoinsPlay(s, e, raw);
    case Respond(id, resp) =>
      RespondKeepsInPlay(s, id, resp);
    case Restart =>
      ResetKeepsInPlay(s, true);
      ResetKeepsInPlay(ResetSession(s, true), false);
    case Wake(e) =>
      FinishKeepsInPlay(s, e, Of(s, e).resp);
    case Timeout(e) =>
      FinishKeepsInPlay(s, e, NoResp);
    case Clear(e) =>
  }

  /** Over every run, engine restarts included: what arrived is what was disposed
      of and what the two sessions hold, nothing twice and nothing lost. */
  lemma {:induction false} EveryRequestIsDisposedOfOnce(garbage: Response, ls: seq<Label>)
    ensures Arrived(ls) == InPlay(After(garbage, ls))
  {
    if ls != [] {
      var k := |ls| - 1;
      EveryRequestIsDisposedOfOnce(garbage, ls[..k]);
      if Enabled(After(garbage, ls[..k]), ls[k]) {
        StepAccounts(After(garbage, ls[..k]), ls[k]);
      }
    }
  }

  // ----- admissions -----

  ghost predicate SessionOk(x: Session, counter: nat) {
    && (x.raw != 0 || x.respRecvd ==> x.waiting > 0)
    && x.own <= counter && (x.raw != 0 ==> x.own > 0)
    && (x.reqID == x.own || x.reqID == 0)
  }

  /** Admission numbers name one request each, held or disposed of once. */
  ghost predicate Numbered(s: State) {
    && (forall i :: 0 <= i < |s.log| ==> s.log[i].own <= s.reqIDCounter)
    && (forall i, j :: 0 <= i < j < |s.log| && s.log[i].own == s.log[j].own ==> s.log[i].own == 0)
    && (s.sessionEs.raw != 0 ==> forall i :: 0 <= i < |s.log| ==> s.log[i].own != s.sessionEs.own)
    && (s.session.raw != 0 ==> forall i :: 0 <= i < |s.log| ==> s.log[i].own != s.session.own)
    && (s.sessionEs.raw != 0 && s.session.raw != 0 ==> s.sessionEs.own != s.session.own)
  }

  ghost predicate Inv(s: State) {
    SessionOk(s.sessionEs, s.reqIDCounter) && SessionOk(s.session, s.reqIDCounter) && Numbered(s)
  }

  lemma ResetKeeps(s: State, emergency: bool)
    requires Inv(s)
    ensures Inv(ResetSession(s, emergency))
  {
  }

  lemma FinishKeeps(s: State, emergency: bool, resp: Response)
    requires Inv(s) && Of(s, emergency).waiting > 0
    ensures Inv(Finish(s, emergency, resp))
  {
  }

  lemma RequestKeeps(s: State, emergency: bool, raw: nat)
    requires Inv(s)
    ensures Inv(HandleRequest(s, emergency, raw))
  {
  }

  lemma RespondKeeps(s: State, id: nat, resp: Response)
    requires Inv(s)
    ensures Inv(HandleRespond(s, id, resp))
  {
  }

  lemma StepKeeps(s: State, l: Label)
    requires Inv(s) && Enabled(s, l)
    ensures Inv(Step(s, l))
  {
    match l
    case Restart =>
      ResetKeeps(s, true);
      ResetKeeps(ResetSession(s, true), false);
    case Wake(e) =>
      FinishKeeps(s, e, Of(s, e).resp);
    case Timeout(e) =>
      FinishKeeps(s, e, NoResp);
    case Request(e, raw) =>
      RequestKeeps(s, e, raw);
    case Respond(id, resp) =>
      RespondKeeps(s, id, resp);
    case Clear(e) =>
  }

  lemma {:induction false} RunKeeps(garbage: Response, ls: seq<Label>)
    ensures Inv(After(garbage, ls))
  {
    if ls != [] {
      var k := |ls| - 1;
      RunKeeps(garbage, ls[..k]);
      if Enabled(After(garbage, ls[..k]), ls[k]) {
        StepKeeps(After(garbage, ls[..k]), ls[k]);
      }
    }
  }

  /** An admitted request has at most one fate, and none while it is held; and a
      held one always has a thread that can still end it. */
  lemma AdmittedRequestsEndOnce(garbage: Response, ls: seq<Label>, emergency: bool)
    ensures var s := After(garbage, ls);
      && (forall i, j :: 0 <= i < j < |s.log| && s.log[i].own > 0 ==> s.log[i].own != s.log[j].own)
      && (Of(s, emergency).raw != 0 ==>
            && (forall i :: 0 <= i < |s.log| ==> s.log[i].own != Of(s, emergency).own)
            && Enabled(s, Timeout(emergency))
            && Step(s, Timeout(emergency)).log
               == s.log + [Disposal(Of(s, emergency).raw, Of(s, emergency).own, Answered(NoResp))])
  {
    RunKeeps(garbage, ls);
  }

  /** A request is admitted exactly if no emergency request is held and, unless it
      is one itself, no ordinary one either.  Then its session holds it, under a
      number of its own; otherwise it is freed and nothing else happens. */
  lemma AdmittedExactly(s: State, emergency: bool, raw: nat)
    requires raw != 0
    ensures var s' := HandleRequest(s, emergency, raw);
      if s.sessionEs.raw == 0 && (emergency || s.session.raw == 0) then
        && s'.log == s.log && s'.reqIDCounter == s.reqIDCounter + 1
        && Of(s', !emergency) == Of(s, !emergency)
        && Of(s', emergency).raw == raw && Of(s', emergency).own == Of(s', emergency).reqID == s.reqIDCounter + 1
        && Of(s', emergency).waiting == Of(s, emergency).waiting + 1
      else s' == s.(log := s.log + [Disposal(raw, 0, Rejected)])
  {
  }

  // ----- whose answer it is -----

  /** The user's response `l` is for the request held as number `n`. */
  predicate Reaches(s: State, id: nat, n: nat) {
    if id == s.sessionEs.reqID && s.sessionEs.raw != 0 then s.sessionEs.own == n
    else id == s.session.reqID && s.session.raw != 0 && s.session.own == n
  }

  /** An emergency request is accepted while request `n` waits. */
  predicate Outranked(s: State, l: Label, n: nat) {
    && l.Respond? && l.resp == Accept && l.id == s.sessionEs.reqID && s.sessionEs.raw != 0
    && s.session.raw != 0 && s.session.own == n
  }

  predicate Causes(s: State, l: Label, n: nat, resp: Response) {
    || (l.Respond? && l.resp == resp && Reaches(s, l.id, n))
    || (resp == Ignore && Outranked(s, l, n))
  }

  /** Some step of the run gave request `n` the answer `resp`. */
  predicate Caused(garbage: Response, ls: seq<Label>, n: nat, resp: Response) {
    ls != [] &&
    var k := |ls| - 1;
    Caused(garbage, ls[..k], n, resp) || Causes(After(garbage, ls[..k]), ls[k], n, resp)
  }

  lemma {:induction false} CausedMeans(garbage: Response, ls: seq<Label>, n: nat, resp: Response)
    requires Caused(garbage, ls, n, resp)
    ensures exists k: nat :: k < |ls| && Causes(After(garbage, ls[..k]), ls[k], n, resp)
  {
    var p := ls[..|ls| - 1];
    if Caused(garbage, p, n, resp) {
      CausedMeans(garbage, p, n, resp);
      var k: nat :| k < |p| && Causes(After(garbage, p[..k]), p[k], n, resp);
      assert p[..k] == ls[..k] && p[k] == ls[k];
    }
  }

  /** A request admitted now cannot take over an answer to an earlier one. */
  predicate Clean(x: Session) {
    x.respRecvd ==> x.resp == NoResp
  }

  predicate AdmitsUncleanly(s: State, l: Label) {
    l.Request? && !Busy(s, l.emergency) && !Clean(Of(s, l.emergency))
  }

  function TakenUncleanly(s: State, l: Label): set<nat> {
    if AdmitsUncleanly(s, l) then {s.reqIDCounter + 1} else {}
  }

  /** The requests of a run that were admitted while an older answer stood. */
  function Unclean(garbage: Response, ls: seq<Label>): set<nat> {
    if ls == [] then {}
    else
      var k := |ls| - 1;
      Unclean(garbage, ls[..k]) + TakenUncleanly(After(garbage, ls[..k]), ls[k])
  }

  lemma CausedGrows(garbage: Response, ls: seq<Label>, l: Label, n: nat, resp: Response)
    ensures Caused(garbage, ls + [l], n, resp) <==>
      Caused(garbage, ls, n, resp) || Causes(After(garbage, ls), l, n, resp)
  {
    assert (ls + [l])[..|ls|] == ls;
  }

  ghost predicate Stands(x: Session) {
    x.raw != 0 && x.respRecvd && x.resp != NoResp
  }

  /** Request `n` was admitted uncleanly, or some step gave it the answer. */
  ghost predicate Explained(garbage: Response, ls: seq<Label>, n: nat, resp: Response) {
    n in Unclean(garbage, ls) || Caused(garbage, ls, n, resp)
  }

  lemma ExplainedGrows(garbage: Response, ls: seq<Label>, l: Label, n: nat, resp: Response)
    ensures Explained(garbage, ls + [l], n, resp) <==>
      || Explained(garbage, ls, n, resp)
      || n in TakenUncleanly(After(garbage, ls), l) || Causes(After(garbage, ls), l, n, resp)
  {
    UncleanGrows(garbage, ls, l);
    CausedGrows(garbage, ls, l, n, resp);
  }

  /** An answer that stands for a held request was given to it. */
  ghost predicate Earned(garbage: Response, ls: seq<Label>, x: Session) {
    Stands(x) ==> Explained(garbage, ls, x.own, x.resp)
  }

  ghost predicate LogEarned(garbage: Response, ls: seq<Label>, d: Disposal) {
    match d.fate
    case Answered(resp) => resp == NoResp || Explained(garbage, ls, d.own, resp)
    case Ignored => Explained(garbage, ls, d.own, Ignore)
    case _ => true
  }

  ghost predicate AllEarned(garbage: Response, ls: seq<Label>) {
    var s := After(garbage, ls);
    && Earned(garbage, ls, s.sessionEs) && Earned(garbage, ls, s.session)
    && forall i :: 0 <= i < |s.log| ==> LogEarned(garbage, ls, s.log[i])
  }

  lemma UncleanGrows(garbage: Response, ls: seq<Label>, l: Label)
    ensures Unclean(garbage, ls + [l]) == Unclean(garbage, ls) + TakenUncleanly(After(garbage, ls), l)
  {
    assert (ls + [l])[..|ls|] == ls;
  }

  lemma AfterGrows(garbage: Response, ls: seq<Label>, l: Label)
    ensures var s := After(garbage, ls);
      After(garbage, ls + [l]) == if Enabled(s, l) then Step(s, l) else s
  {
    assert (ls + [l])[..|ls|] == ls;
  }

  lemma EarnedStays(garbage: Response, ls: seq<Label>, l: Label, d: Disposal)
    requires LogEarned(garbage, ls, d)
    ensures LogEarned(garbage, ls + [l], d)
  {
    match d.fate
    case Answered(resp) => ExplainedGrows(garbage, ls, l, d.own, resp);
    case Ignored => ExplainedGrows(garbage, ls, l, d.own, Ignore);
    case _ =>
  }

  /** Where an answer that stands after a step comes from. */
  lemma AnswerOrigin(s: State, l: Label, emergency: bool)
    requires Enabled(s, l) && Stands(Of(Step(s, l), emergency))
    ensures var x, x' := Of(s, emergency), Of(Step(s, l), emergency);
      || (Stands(x) && x.own == x'.own && x.resp == x'.resp)
      || Causes(s, l, x'.own, x'.resp)
      || (AdmitsUncleanly(s, l) && x'.own == s.reqIDCounter + 1)
  {
  }

  lemma SessionStaysEarned(garbage: Response, ls: seq<Label>, l: Label, emergency: bool)
    requires Enabled(After(garbage, ls), l) && Earned(garbage, ls, Of(After(garbage, ls), emergency))
    ensures Earned(garbage, ls + [l], Of(Step(After(garbage, ls), l), emergency))
  {
    var s := After(garbage, ls);
    var x' := Of(Step(s, l), emergency);
    if Stands(x') {
      AnswerOrigin(s, l, emergency);
      ExplainedGrows(garbage, ls, l, x'.own, x'.resp);
    }
  }

  /** What a step adds to the log was held, and an answer it carries stood. */
  lemma StepLogs(s: State, l: Label, i: nat)
    requires Enabled(s, l) && i < |Step(s, l).log|
    ensures |s.log| <= |Step(s, l).log|
    ensures i < |s.log| ==> Step(s, l).log[i] == s.log[i]
    ensures var d := Step(s, l).log[i];
      i >= |s.log| ==>
        || d.fate == Rejected || d.fate == Reset || d.fate == Answered(NoResp)
        || (l.Wake? && var x := Of(s, l.emergency);
            d == Disposal(x.raw, x.own, Outcome(x.resp)) && x.raw != 0 && x.respRecvd)
  {
  }

  lemma LogStaysEarned(garbage: Response, ls: seq<Label>, l: Label, i: nat)
    requires AllEarned(garbage, ls) && Enabled(After(garbage, ls), l)
    requires i < |Step(After(garbage, ls), l).log|
    ensures LogEarned(garbage, ls + [l], Step(After(garbage, ls), l).log[i])
  {
    var s := After(garbage, ls);
    StepLogs(s, l, i);
    if i < |s.log| {
      EarnedStays(garbage, ls, l, s.log[i]);
    } else if l.Wake? {
      var x := Of(s, l.emergency);
      assert Earned(garbage, ls, x);
      EarnedStays(garbage, ls, l, Disposal(x.raw, x.own, Outcome(x.resp)));
    }
  }

  lemma StepEarns(garbage: Response, ls: seq<Label>, l: Label)
    requires AllEarned(garbage, ls)
    ensures AllEarned(garbage, ls + [l])
  {
    var s := After(garbage, ls);
    AfterGrows(garbage, ls, l);
    if Enabled(s, l) {
      SessionStaysEarned(garbage, ls, l, true);
      SessionStaysEarned(garbage, ls, l, false);
      forall i | 0 <= i < |Step(s, l).log| ensures LogEarned(garbage, ls + [l], Step(s, l).log[i]) {
        LogStaysEarned(garbage, ls, l, i);
      }
    } else {
      IdleStaysEarned(garbage, ls, l);
    }
  }

  lemma IdleStaysEarned(garbage: Response, ls: seq<Label>, l: Label)
    requires AllEarned(garbage, ls) && !Enabled(After(garbage, ls), l)
    ensures AllEarned(garbage, ls + [l])
  {
    var s := After(garbage, ls);
    AfterGrows(garbage, ls, l);
    ExplainedGrows(garbage, ls, l, s.sessionEs.own, s.sessionEs.resp);
    ExplainedGrows(garbage, ls, l, s.session.own, s.session.resp);
    forall i | 0 <= i < |s.log| ensures LogEarned(garbage, ls + [l], s.log[i]) {
      EarnedStays(garbage, ls, l, s.log[i]);
    }
  }

  lemma {:induction false} RunEarns(garbage: Response, ls: seq<Label>)
    ensures AllEarned(garbage, ls)
  {
    if ls != [] {
      var k := |ls| - 1;
      RunEarns(garbage, ls[..k]);
      StepEarns(garbage, ls[..k], ls[k]);
      assert ls[..k] + [ls[k]] == ls;
    }
  }

  /** Over every run, engine restarts included: a request that was admitted
      cleanly is answered with its own user's response or "no response", and is
      ignored only if its user said so or an emergency request was accepted. */
  lemma AnswersAreTheUsersOwn(garbage: Response, ls: seq<Label>, i: nat)
    requires i < |After(garbage, ls).log| && After(garbage, ls).log[i].own !in Unclean(garbage, ls)
    ensures var d := After(garbage, ls).log[i];
      match d.fate
      case Answered(resp) => resp == NoResp || Caused(garbage, ls, d.own, resp)
      case Ignored => Caused(garbage, ls, d.own, Ignore)
      case _ => true
  {
    RunEarns(garbage, ls);
    assert LogEarned(garbage, ls, After(garbage, ls).log[i]);
  }

  /** A response that reaches request `n` carries its number, or 0 after some
      thread has cleared it. */
  lemma ResponsesCarryTheNumber(garbage: Response, ls: seq<Label>, id: nat, n: nat)
    requires Reaches(After(garbage, ls), id, n)
    ensures id == n || id == 0
  {
    RunKeeps(garbage, ls);
  }

  /** Without engine restarts every admission is clean. */
  lemma {:induction false} WithoutRestartAllIsClean(garbage: Response, ls: seq<Label>)
    requires Restart !in ls
    ensures Unclean(garbage, ls) == {}
    ensures forall e :: Of(After(garbage, ls), e).respRecvd ==> Of(After(garbage, ls), e).raw != 0
  {
    if ls != [] {
      var k := |ls| - 1;
      WithoutRestartAllIsClean(garbage, ls[..k]);
      assert ls[k] in ls;
      FlagMeansHeld(After(garbage, ls[..k]), ls[k]);
    }
  }

  lemma FlagMeansHeld(s: State, l: Label)
    requires l != Restart && forall e :: Of(s, e).respRecvd ==> Of(s, e).raw != 0
    ensures !AdmitsUncleanly(s, l)
    ensures Enabled(s, l) ==> forall e :: Of(Step(s, l), e).respRecvd ==> Of(Step(s, l), e).raw != 0
  {
    assert Of(s, true) == s.sessionEs && Of(s, false) == s.session;
  }

  /** The condition is exact: in whatever state a run leaves, a request admitted
      to an unclean session can be given, at once, an answer that nobody gave. */
  lemma UncleanRequestTakesOldAnswer(garbage: Response, ls: seq<Label>, emergency: bool, raw: nat)
    requires raw != 0
    requires !Busy(After(garbage, ls), emergency) && !Clean(Of(After(garbage, ls), emergency))
    ensures var s, ls' := After(garbage, ls), ls + [Request(emergency, raw)] + [Wake(emergency)];
      var n, old' := s.reqIDCounter + 1, Of(s, emergency).resp;
      && old' != NoResp
      && After(garbage, ls').log == s.log + [Disposal(raw, n, Outcome(old'))]
      && !Caused(garbage, ls', n, old')
  {
    var s, l1, l2 := After(garbage, ls), Request(emergency, raw), Wake(emergency);
    OldAnswerAtOnce(s, emergency, raw);
    AfterGrows(garbage, ls, l1);
    AfterGrows(garbage, ls + [l1], l2);
    NoCauseSoon(garbage, ls, l1, l2, s.reqIDCounter + 1, Of(s, emergency).resp);
  }

  lemma NoCauseSoon(garbage: Response, ls: seq<Label>, l1: Label, l2: Label, n: nat, resp: Response)
    requires After(garbage, ls).reqIDCounter < n && !l1.Respond? && !l2.Respond?
    ensures !Caused(garbage, ls + [l1] + [l2], n, resp)
  {
    NoCauseYet(garbage, ls, n, resp);
    CausedGrows(garbage, ls, l1, n, resp);
    CausedGrows(garbage, ls + [l1], l2, n, resp);
  }

  lemma OldAnswerAtOnce(s: State, emergency: bool, raw: nat)
    requires raw != 0 && !Busy(s, emergency) && !Clean(Of(s, emergency))
    ensures var s' := HandleRequest(s, emergency, raw);
      Enabled(s', Wake(emergency)) &&
      Step(s', Wake(emergency)).log == s.log + [Disposal(raw, s.reqIDCounter + 1, Outcome(Of(s, emergency).resp))]
  {
  }

  lemma {:induction false} NoCauseYet(garbage: Response, ls: seq<Label>, n: nat, resp: Response)
    requires After(garbage, ls).reqIDCounter < n
    ensures !Caused(garbage, ls, n, resp)
  {
    if ls != [] {
      var k := |ls| - 1;
      if Enabled(After(garbage, ls[..k]), ls[k]) {
        CounterGrows(After(garbage, ls[..k]), ls[k]);
      }
      NoCauseYet(garbage, ls[..k], n, resp);
      RunKeeps(garbage, ls[..k]);
      NothingForLaterRequests(After(garbage, ls[..k]), ls[k], n, resp);
    }
  }

  lemma CounterGrows(s: State, l: Label)
    requires Enabled(s, l)
    ensures s.reqIDCounter <= Step(s, l).reqIDCounter
  {
  }

  lemma NothingForLaterRequests(s: State, l: Label, n: nat, resp: Response)
    requires Inv(s) && n > s.reqIDCounter
    ensures !Causes(s, l, n, resp)
  {
  }

  /** Request 1 is accepted, and an engine restart takes request 2 away before
      its thread has woken. */
  function AcceptThenRestart(raw: nat): seq<Label> {
    [Request(false, raw), Respond(1, Accept), Wake(false), Request(false, raw), Restart]
  }

  const Idle := Session(0, NoResp, false, 0, 0, 0, 0)

  lemma OneAsked(raw: nat)
    requires raw != 0
    ensures After(NoResp, AcceptThenRestart(raw)[..1]) == State(Session(raw, NoResp, false, 1, 1, 1, 0), Idle, 1, [])
  {
    assert AcceptThenRestart(raw)[..1][..0] == [];
  }

  lemma OneAnswered(raw: nat)
    requires raw != 0
    ensures After(NoResp, AcceptThenRestart(raw)[..2]) == State(Session(raw, Accept, true, 1, 1, 1, 0), Idle, 1, [])
  {
    OneAsked(raw);
    assert AcceptThenRestart(raw)[..2][..1] == AcceptThenRestart(raw)[..1];
  }

  lemma OneDone(raw: nat)
    requires raw != 0
    ensures After(NoResp, AcceptThenRestart(raw)[..3]) ==
      State(Session(0, Accept, false, 1, 1, 0, 1), Idle, 1, [Disposal(raw, 1, Answered(Accept))])
  {
    OneAnswered(raw);
    assert AcceptThenRestart(raw)[..3][..2] == AcceptThenRestart(raw)[..2];
  }

  lemma TwoAsked(raw: nat)
    requires raw != 0
    ensures After(NoResp, AcceptThenRestart(raw)[..4]) ==
      State(Session(raw, Accept, false, 2, 2, 1, 1), Idle, 2, [Disposal(raw, 1, Answered(Accept))])
  {
    OneDone(raw);
    assert AcceptThenRestart(raw)[..4][..3] == AcceptThenRestart(raw)[..3];
  }

  /** Such a state: the restart of request 2 leaves the flag set, and the answer
      to request 1 is still there. */
  lemma RestartLeavesAnOldAnswer(raw: nat)
    requires raw != 0
    ensures var s := After(NoResp, AcceptThenRestart(raw));
      !Busy(s, false) && !Clean(s.session) && s.session.resp == Accept
  {
    TwoAsked(raw);
  }
}
