/** The number that a response must carry: when a held request can still be
    answered by its own user. */
module NiNumbers {
  import opened NiProtocol

  /** Step `j` clears the number of the request that was last admitted as `n`. */
  predicate ClearsNumber(garbage: Response, ls: seq<Label>, j: nat, emergency: bool, n: nat)
    requires j < |ls|
  {
    var s := After(garbage, ls[..j]);
    ls[j] == Clear(emergency) && Enabled(s, ls[j]) && Of(s, emergency).own == n
  }

  /** Some thread of the session has cleared its number since `n` was admitted. */
  ghost predicate Cleared(garbage: Response, ls: seq<Label>, emergency: bool, n: nat) {
    exists j: nat :: j < |ls| && ClearsNumber(garbage, ls, j, emergency, n)
  }

  lemma ClearedSnoc(garbage: Response, ls: seq<Label>, l: Label, emergency: bool, n: nat)
    ensures var s := After(garbage, ls);
      Cleared(garbage, ls + [l], emergency, n) <==>
      || Cleared(garbage, ls, emergency, n)
      || (l == Clear(emergency) && Enabled(s, l) && Of(s, emergency).own == n)
  {
    var ls' := ls + [l];
    assert ls'[..|ls|] == ls && ls'[|ls|] == l;
    forall j: nat | j < |ls|
      ensures ClearsNumber(garbage, ls', j, emergency, n) == ClearsNumber(garbage, ls, j, emergency, n)
    {
      assert ls'[..j] == ls[..j] && ls'[j] == ls[j];
    }
    if j: nat :| j < |ls| && ClearsNumber(garbage, ls, j, emergency, n) {
      assert ClearsNumber(garbage, ls', j, emergency, n);
    }
    if l == Clear(emergency) && Enabled(After(garbage, ls), l) && Of(After(garbage, ls), emergency).own == n {
      assert ClearsNumber(garbage, ls', |ls|, emergency, n);
    }
  }

  /** The number of a later request has not been cleared. */
  lemma {:induction false} NotClearedYet(garbage: Response, ls: seq<Label>, emergency: bool, n: nat)
    requires After(garbage, ls).reqIDCounter < n
    ensures !Cleared(garbage, ls, emergency, n)
  {
    if ls != [] {
      var k := |ls| - 1;
      var s := After(garbage, ls[..k]);
      assert ls == ls[..k] + [ls[k]];
      RunKeeps(garbage, ls[..k]);
      if Enabled(s, ls[k]) {
        CounterGrows(s, ls[k]);
      }
      NotClearedYet(garbage, ls[..k], emergency, n);
      ClearedSnoc(garbage, ls[..k], ls[k], emergency, n);
    }
  }

  /** How a step changes the number that was given last, and the number that a
      response must carry. */
  lemma NumberMoves(s: State, l: Label, emergency: bool)
    requires Enabled(s, l)
    ensures var x, x' := Of(s, emergency), Of(Step(s, l), emergency);
      if x'.own != x.own then x'.own == x'.reqID == s.reqIDCounter + 1 && !l.Clear?
      else if l == Clear(emergency) then x'.reqID == 0
      else x'.reqID == x.reqID || (l.Request? && x'.reqID == x'.own == s.reqIDCounter + 1)
  {
  }

  ghost predicate NumberStands(garbage: Response, ls: seq<Label>, emergency: bool) {
    var x := Of(After(garbage, ls), emergency);
    x.own > 0 ==> (x.reqID == x.own <==> !Cleared(garbage, ls, emergency, x.own))
  }

  lemma StepNumber(garbage: Response, ls: seq<Label>, l: Label, emergency: bool)
    requires NumberStands(garbage, ls, emergency) && Enabled(After(garbage, ls), l)
    ensures NumberStands(garbage, ls + [l], emergency)
  {
    var s := After(garbage, ls);
    var x' := Of(Step(s, l), emergency);
    AfterGrows(garbage, ls, l);
    RunKeeps(garbage, ls);
    NumberMoves(s, l, emergency);
    ClearedSnoc(garbage, ls, l, emergency, x'.own);
    if x'.own > s.reqIDCounter {
      NotClearedYet(garbage, ls, emergency, x'.own);
    }
  }

  lemma {:induction false} RunNumber(garbage: Response, ls: seq<Label>, emergency: bool)
    ensures NumberStands(garbage, ls, emergency)
  {
    if ls != [] {
      var k := |ls| - 1;
      RunNumber(garbage, ls[..k], emergency);
      assert ls == ls[..k] + [ls[k]];
      if Enabled(After(garbage, ls[..k]), ls[k]) {
        StepNumber(garbage, ls[..k], ls[k], emergency);
      } else {
        IdleNumber(garbage, ls[..k], ls[k], emergency);
      }
    }
  }

  lemma IdleNumber(garbage: Response, ls: seq<Label>, l: Label, emergency: bool)
    requires NumberStands(garbage, ls, emergency) && !Enabled(After(garbage, ls), l)
    ensures NumberStands(garbage, ls + [l], emergency)
  {
    AfterGrows(garbage, ls, l);
    ClearedSnoc(garbage, ls, l, emergency, Of(After(garbage, ls), emergency).own);
  }

  /** Over every run: the response that carries a held request's own number
      reaches it if and only if no thread of the session has cleared since the
      request was admitted; otherwise the response changes nothing at all. */
  lemma OwnNumberReachesExactly(garbage: Response, ls: seq<Label>, emergency: bool, resp: Response)
    requires Of(After(garbage, ls), emergency).raw != 0
    ensures var s := After(garbage, ls); var n := Of(s, emergency).own;
      && (Reaches(s, n, n) <==> !Cleared(garbage, ls, emergency, n))
      && (Cleared(garbage, ls, emergency, n) ==> Step(s, Respond(n, resp)) == s)
  {
    RunKeeps(garbage, ls);
    RunNumber(garbage, ls, emergency);
  }

  // ----- without any restart -----

  /** Request 1 is answered; request 2 is admitted before the thread of request 1
      has cleared its number; then the user accepts request 2. */
  function AcceptAfterClear(a: nat, b: nat): seq<Label> {
    [Request(false, a), Respond(1, Accept), Wake(false), Request(false, b), Clear(false), Respond(2, Accept), Timeout(false)]
  }

  lemma NextStep(garbage: Response, ls: seq<Label>, k: nat)
    requires k < |ls|
    ensures var s := After(garbage, ls[..k]);
      After(garbage, ls[..k + 1]) == if Enabled(s, ls[k]) then Step(s, ls[k]) else s
  {
    assert ls[..k + 1][..k] == ls[..k];
  }

  lemma OneIsAnswered(a: nat, b: nat)
    requires a != 0
    ensures After(NoResp, AcceptAfterClear(a, b)[..2]) == State(Session(a, Accept, true, 1, 1, 1, 0), Idle, 1, [])
  {
    var ls := AcceptAfterClear(a, b);
    NextStep(NoResp, ls, 0);
    NextStep(NoResp, ls, 1);
  }

  lemma TwoIsAdmitted(a: nat, b: nat)
    requires a != 0 && b != 0
    ensures After(NoResp, AcceptAfterClear(a, b)[..4]) ==
      State(Session(b, Accept, false, 2, 2, 1, 1), Idle, 2, [Disposal(a, 1, Answered(Accept))])
  {
    var ls := AcceptAfterClear(a, b);
    OneIsAnswered(a, b);
    NextStep(NoResp, ls, 2);
    NextStep(NoResp, ls, 3);
  }

  lemma TwoIsNotHeard(a: nat, b: nat)
    requires a != 0 && b != 0
    ensures After(NoResp, AcceptAfterClear(a, b)[..6]) ==
      State(Session(b, Accept, false, 0, 2, 1, 0), Idle, 2, [Disposal(a, 1, Answered(Accept))])
  {
    var ls := AcceptAfterClear(a, b);
    TwoIsAdmitted(a, b);
    NextStep(NoResp, ls, 4);
    NextStep(NoResp, ls, 5);
  }

  /** So it takes no restart: the user of request 2 accepts it, and it ends without
      a response. */
  lemma AcceptedButNotHeard(a: nat, b: nat)
    requires a != 0 && b != 0
    ensures Respond(2, Accept) in AcceptAfterClear(a, b) && Restart !in AcceptAfterClear(a, b)
    ensures After(NoResp, AcceptAfterClear(a, b)).log ==
      [Disposal(a, 1, Answered(Accept)), Disposal(b, 2, Answered(NoResp))]
  {
    var ls := AcceptAfterClear(a, b);
    TwoIsNotHeard(a, b);
    NextStep(NoResp, ls, 6);
    assert ls[..7] == ls && ls[5] in ls;
  }
}
