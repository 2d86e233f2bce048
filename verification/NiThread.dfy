/** The waiting loop of a thread of a network-initiated session, with everything
    that other threads do while it waits: all of it is a run of the protocol. */
module NiThreads {
  import opened NiProtocol

  /** One timed wait: what other threads do meanwhile, and whether it timed out. */
  datatype Wait = Wait(others: seq<Label>, timedOut: bool)

  /** A label of another thread: it is not the last waiting thread's own work. */
  predicate Foreign(s: State, emergency: bool, l: Label) {
    Enabled(s, l) && (l == Wake(emergency) || l == Timeout(emergency) ==> Of(s, emergency).waiting > 1)
  }

  function OtherDoes(s: State, emergency: bool, l: Label): (u: State)
    ensures Of(s, emergency).waiting > 0 ==> Of(u, emergency).waiting > 0
  {
    if Foreign(s, emergency, l) then Step(s, l) else s
  }

  function OthersDo(s: State, emergency: bool, ls: seq<Label>): (u: State)
    ensures Of(s, emergency).waiting > 0 ==> Of(u, emergency).waiting > 0
    decreases |ls|
  {
    if ls == [] then s else OthersDo(OtherDoes(s, emergency, ls[0]), emergency, ls[1..])
  }

  /** Whether the thread finishes within the given waits, the flag being tested
      first: because the flag is set, or because a wait times out. */
  predicate Finishes(s: State, emergency: bool, waits: seq<Wait>)
    decreases |waits|
  {
    || Of(s, emergency).respRecvd
    || (waits != [] &&
        (waits[0].timedOut || Finishes(OthersDo(s, emergency, waits[0].others), emergency, waits[1..])))
  }

  /** What the session and the rest have come to by then. */
  function ThreadRun(s: State, emergency: bool, waits: seq<Wait>): State
    requires Of(s, emergency).waiting > 0
    decreases |waits|
  {
    if Of(s, emergency).respRecvd then Step(s, Wake(emergency))
    else if waits == [] then s
    else
      var u := OthersDo(s, emergency, waits[0].others);
      if waits[0].timedOut then Step(u, Timeout(emergency)) else ThreadRun(u, emergency, waits[1..])
  }

  /** Those of the others' labels that can take place. */
  function OthersLabels(s: State, emergency: bool, ls: seq<Label>): seq<Label>
    decreases |ls|
  {
    if ls == [] then []
    else
      (if Foreign(s, emergency, ls[0]) then [ls[0]] else [])
        + OthersLabels(OtherDoes(s, emergency, ls[0]), emergency, ls[1..])
  }

  /** All the labels that the thread's run amounts to. */
  function LabelsOf(s: State, emergency: bool, waits: seq<Wait>): seq<Label>
    requires Of(s, emergency).waiting > 0
    decreases |waits|
  {
    if Of(s, emergency).respRecvd then [Wake(emergency)]
    else if waits == [] then []
    else
      var u := OthersDo(s, emergency, waits[0].others);
      OthersLabels(s, emergency, waits[0].others)
        + if waits[0].timedOut then [Timeout(emergency)] else LabelsOf(u, emergency, waits[1..])
  }

  lemma {:induction false} AfterOthers(garbage: Response, pre: seq<Label>, emergency: bool, ls: seq<Label>)
    ensures After(garbage, pre + OthersLabels(After(garbage, pre), emergency, ls))
         == OthersDo(After(garbage, pre), emergency, ls)
    decreases |ls|
  {
    var s := After(garbage, pre);
    if ls == [] {
      assert pre + [] == pre;
    } else {
      var rest := OthersLabels(OtherDoes(s, emergency, ls[0]), emergency, ls[1..]);
      if Foreign(s, emergency, ls[0]) {
        AfterGrows(garbage, pre, ls[0]);
        AfterOthers(garbage, pre + [ls[0]], emergency, ls[1..]);
        assert pre + ([ls[0]] + rest) == (pre + [ls[0]]) + rest;
      } else {
        AfterOthers(garbage, pre, emergency, ls[1..]);
        assert [] + rest == rest;
      }
    }
  }

  lemma AfterTwo(garbage: Response, pre: seq<Label>, others: seq<Label>, l: Label)
    ensures var u := After(garbage, pre + others);
      After(garbage, pre + (others + [l])) == if Enabled(u, l) then Step(u, l) else u
  {
    AfterGrows(garbage, pre + others, l);
    assert pre + (others + [l]) == (pre + others) + [l];
  }

  /** The loop, with everything that happens during its waits, is a run of the
      protocol, after any run that leaves the thread waiting: so whatever is proved
      of runs holds of the thread. */
  lemma {:induction false} ThreadIsARun(garbage: Response, pre: seq<Label>, emergency: bool, waits: seq<Wait>)
    requires Of(After(garbage, pre), emergency).waiting > 0
    ensures var s := After(garbage, pre);
      After(garbage, pre + LabelsOf(s, emergency, waits)) == ThreadRun(s, emergency, waits)
    decreases |waits|
  {
    var s := After(garbage, pre);
    if Of(s, emergency).respRecvd {
      AfterGrows(garbage, pre, Wake(emergency));
    } else if waits == [] {
      assert pre + [] == pre;
    } else {
      var others := OthersLabels(s, emergency, waits[0].others);
      AfterOthers(garbage, pre, emergency, waits[0].others);
      if waits[0].timedOut {
        AfterTwo(garbage, pre, others, Timeout(emergency));
      } else {
        ThreadIsARun(garbage, pre + others, emergency, waits[1..]);
        OneWait(s, emergency, waits, pre);
      }
    }
  }

  /** A wait that does not time out only puts the others' labels first. */
  lemma OneWait(s: State, emergency: bool, waits: seq<Wait>, pre: seq<Label>)
    requires Of(s, emergency).waiting > 0 && !Of(s, emergency).respRecvd && waits != [] && !waits[0].timedOut
    ensures var u := OthersDo(s, emergency, waits[0].others);
      && ThreadRun(s, emergency, waits) == ThreadRun(u, emergency, waits[1..])
      && pre + LabelsOf(s, emergency, waits)
         == (pre + OthersLabels(s, emergency, waits[0].others)) + LabelsOf(u, emergency, waits[1..])
  {
  }

  /** It ends with the thread's own wake-up or timeout exactly when it finishes;
      until then the thread waits, with the flag down. */
  lemma {:induction false} ThreadEnds(s: State, emergency: bool, waits: seq<Wait>)
    requires Of(s, emergency).waiting > 0
    ensures var ls, x := LabelsOf(s, emergency, waits), Of(ThreadRun(s, emergency, waits), emergency);
      if Finishes(s, emergency, waits)
      then ls != [] && (ls[|ls| - 1] == Wake(emergency) || ls[|ls| - 1] == Timeout(emergency))
      else x.waiting > 0 && !x.respRecvd
    decreases |waits|
  {
    if !Of(s, emergency).respRecvd && waits != [] && !waits[0].timedOut {
      ThreadEnds(OthersDo(s, emergency, waits[0].others), emergency, waits[1..]);
    }
  }
}
