/** The books of the timer service: reference counts of the shared locks, and
    starts against stops and callbacks. */
module TimerAccounts {
  import opened Wrappers
  import opened Rankables
  import opened TimerSystem
  import opened TimerLifetime
  import H = HeapTree

  /** The undeleted delegates that share client `c`'s lock. */
  ghost function Owned(s: State, c: nat): set<nat> {
    set i | i in s.objects && s.objects[i].owner == c
  }

  ghost predicate LockOk(s: State, c: nat)
    requires c in s.clients
  {
    var cl := s.clients[c];
    && cl.lockRef == (if cl.alive then 1 else 0) + |Owned(s, c)|
    && cl.frees == if cl.lockRef == 0 then 1 else 0
  }

  ghost predicate CountsOk(s: State, c: nat)
    requires c in s.clients
  {
    var cl := s.clients[c];
    && cl.starts == cl.stops + cl.expireStops + (if cl.timer.Some? then 1 else 0)
    && cl.callbacks + (if s.pc.Stopped? && s.pc.client == c then 1 else 0) == cl.expireStops
  }

  ghost predicate BooksOk(s: State) {
    forall c :: c in s.clients ==> LockOk(s, c) && CountsOk(s, c)
  }

  lemma SameBooks(s: State, u: State)
    requires BooksOk(s) && u.clients == s.clients && u.objects == s.objects
    requires !s.pc.Stopped? && !u.pc.Stopped?
    ensures BooksOk(u)
  {
    forall c | c in u.clients ensures LockOk(u, c) && CountsOk(u, c) {
      assert LockOk(s, c) && CountsOk(s, c) && Owned(u, c) == Owned(s, c);
    }
  }

  lemma NewClientBooks(s: State, c: nat)
    requires LifeInv(s) && BooksOk(s) && c !in s.clients
    ensures BooksOk(Step(s, NewClient(c)))
  {
    var u := Step(s, NewClient(c));
    forall e | e in u.clients ensures LockOk(u, e) && CountsOk(u, e) {
      assert Owned(u, e) == Owned(s, e);
      if e == c {
        forall i | i in s.objects ensures s.objects[i].owner != c { assert ObjectOk(s, i); }
        assert Owned(u, c) == {};
      } else {
        assert LockOk(s, e) && CountsOk(s, e);
      }
    }
  }

  lemma StartOwned(s: State, c: nat, ms: nat, wake: bool, e: nat)
    requires ObjectsOk(s) && c in s.clients && s.clients[c].timer.None?
    ensures Owned(StartTimer(s, c, ms, wake), e) == Owned(s, e) + if e == c then {s.nextId} else {}
    ensures s.nextId !in Owned(s, e)
  {
    assert s.nextId in s.objects ==> ObjectOk(s, s.nextId);
  }

  lemma StartBooks(s: State, c: nat, ms: nat, wake: bool)
    requires LifeInv(s) && BooksOk(s) && c in s.clients && s.clients[c].alive
    ensures BooksOk(StartTimer(s, c, ms, wake))
  {
    if s.clients[c].timer.None? {
      var u := StartTimer(s, c, ms, wake);
      forall e | e in u.clients ensures LockOk(u, e) && CountsOk(u, e) {
        assert LockOk(s, e) && CountsOk(s, e);
        StartOwned(s, c, ms, wake, e);
      }
    }
  }

  /** The effect of a stop on the books, before any callback. */
  lemma StopBooks(s: State, c: nat, byExpire: bool)
    requires LifeInv(s) && c in s.clients
    ensures var u := StopTimer(CountStop(s, c, byExpire), c);
      && u.clients.Keys == s.clients.Keys
      && (forall e :: e in s.clients ==> Owned(u, e) == Owned(s, e))
      && (forall e :: e in s.clients && e != c ==> u.clients[e] == s.clients[e])
      && u.clients[c] ==
         (if s.clients[c].timer.None? then s.clients[c]
          else if byExpire
          then s.clients[c].(timer := None, expireStops := s.clients[c].expireStops + 1)
          else s.clients[c].(timer := None, stops := s.clients[c].stops + 1))
  {
    var u := StopTimer(CountStop(s, c, byExpire), c);
    StopShape(s, c, byExpire);
    forall e | e in s.clients ensures Owned(u, e) == Owned(s, e) {
    }
  }

  lemma ClientStopBooks(s: State, c: nat)
    requires LifeInv(s) && BooksOk(s) && c in s.clients
    ensures BooksOk(StopTimer(CountStop(s, c, false), c))
  {
    var u := StopTimer(CountStop(s, c, false), c);
    StopBooks(s, c, false);
    StopShape(s, c, false);
    forall e | e in u.clients ensures LockOk(u, e) && CountsOk(u, e) {
      assert LockOk(s, e) && CountsOk(s, e);
    }
  }

  lemma DestroyBooks(s: State, c: nat)
    requires LifeInv(s) && BooksOk(s) && c in s.clients && s.clients[c].alive
    ensures BooksOk(DestroyTimer(s, c))
  {
    ClientStopBooks(s, c);
    StopBooks(s, c, false);
    LetGoBooks(StopTimer(CountStop(s, c, false), c), c);
  }

  lemma LetGoBooks(v: State, c: nat)
    requires BooksOk(v) && c in v.clients && v.clients[c].alive
    ensures BooksOk(DropLock(v.(clients := v.clients[c := v.clients[c].(alive := false)]), c))
  {
    var u := DropLock(v.(clients := v.clients[c := v.clients[c].(alive := false)]), c);
    forall e | e in u.clients ensures LockOk(u, e) && CountsOk(u, e) {
      assert LockOk(v, e) && CountsOk(v, e);
      SameOwned(v, u, e);
    }
  }

  lemma DeleteBooks(s: State)
    requires LifeInv(s) && BooksOk(s) && s.pc.Deleting?
    ensures BooksOk(MsgEffect(s))
  {
    var u, i := MsgEffect(s), s.pc.d.id;
    assert VictimOk(s, s.pc.d) && ObjectOk(s, i);
    forall e | e in u.clients ensures LockOk(u, e) && CountsOk(u, e) {
      assert LockOk(s, e) && CountsOk(s, e);
      DeletedOwned(s, u, i, e);
    }
  }

  lemma DeletedOwned(s: State, u: State, i: nat, e: nat)
    requires i in s.objects && u.objects == s.objects - {i}
    ensures |Owned(u, e)| == |Owned(s, e)| - if e == s.objects[i].owner then 1 else 0
  {
    if e == s.objects[i].owner {
      assert i in Owned(s, e) && Owned(u, e) == Owned(s, e) - {i};
    } else {
      assert Owned(u, e) == Owned(s, e);
    }
  }

  lemma SameOwned(s: State, u: State, e: nat)
    requires u.objects == s.objects
    ensures Owned(u, e) == Owned(s, e)
  {
  }

  lemma PoppedBooks(s: State)
    requires LifeInv(s) && BooksOk(s) && s.pc.Popped?
    ensures BooksOk(MsgEffect(s))
  {
    PoppedForm(s);
    var client := s.objects[s.pc.d.id].client;
    if client.Some? {
      ExpireStopBooks(s, client.value, MsgEffect(s));
    } else {
      SameBooks(s, MsgEffect(s));
    }
  }

  lemma ExpireStopBooks(s: State, c: nat, u: State)
    requires LifeInv(s) && BooksOk(s) && s.pc.Popped? && c in s.clients && s.clients[c].timer.Some?
    requires u == StopTimer(CountStop(s, c, true), c).(pc := Stopped(s.pc.c, s.pc.now, c))
    ensures BooksOk(u)
  {
    StopBooks(s, c, true);
    var v := StopTimer(CountStop(s, c, true), c);
    forall e | e in u.clients ensures LockOk(u, e) && CountsOk(u, e) {
      assert LockOk(s, e) && CountsOk(s, e) && Owned(u, e) == Owned(v, e);
    }
  }

  lemma CallbackBooks(s: State)
    requires LifeInv(s) && BooksOk(s) && s.pc.Stopped?
    ensures BooksOk(MsgEffect(s))
  {
    var u := MsgEffect(s);
    forall e | e in u.clients ensures LockOk(u, e) && CountsOk(u, e) {
      assert LockOk(s, e) && CountsOk(s, e) && Owned(u, e) == Owned(s, e);
    }
  }

  lemma FetchKeepsTables(s: State)
    requires s.queue != []
    ensures FetchMsg(s).clients == s.clients && FetchMsg(s).objects == s.objects
    ensures !FetchMsg(s).pc.Stopped? || FetchMsg(s).pc == s.pc
  {
    var s1 := s.(queue := s.queue[1..]);
    match s.queue[0]
    case Push(k, d) =>
      UpdateShape(s1.WithHeap(k, H.Push(s.Heap(k), d)), k, H.Peek(s.Heap(k)), None);
    case Remove(k, d) =>
      UpdateShape(s1.WithHeap(k, H.AfterRemove(s.Heap(k), d)), k, None, Some(d));
    case Expire(k) =>
      UpdateShape(s1, k, None, None);
  }

  lemma FetchBooks(s: State)
    requires BooksOk(s) && s.pc == Idle && s.queue != []
    ensures BooksOk(FetchMsg(s))
  {
    FetchKeepsTables(s);
    SameBooks(s, FetchMsg(s));
  }

  lemma UpdateBooks(s: State)
    requires BooksOk(s) && s.pc.Update?
    ensures BooksOk(MsgEffect(s))
  {
    SameBooks(s, MsgEffect(s));
  }

  lemma ScanBooks(s: State)
    requires BooksOk(s) && s.pc.Scan?
    ensures BooksOk(MsgEffect(s))
  {
    UpdateShape(s, s.pc.c, None, None);
    SameBooks(s, MsgEffect(s));
  }

  lemma MsgEffectBooks(s: State)
    requires LifeInv(s) && BooksOk(s) && s.pc != Idle
    ensures BooksOk(MsgEffect(s))
  {
    match s.pc
    case Update(_, _, _, _) => UpdateBooks(s);
    case Deleting(_) => DeleteBooks(s);
    case Popped(_, _, _) => PoppedBooks(s);
    case Stopped(_, _, _) => CallbackBooks(s);
    case Scan(_, _) => ScanBooks(s);
  }

  lemma PollBooks(s: State, u: State)
    requires BooksOk(s) && u.clients == s.clients && u.objects == s.objects && u.pc == s.pc
    ensures BooksOk(u)
  {
    forall c | c in u.clients ensures LockOk(u, c) && CountsOk(u, c) {
      assert LockOk(s, c) && CountsOk(s, c) && Owned(u, c) == Owned(s, c);
    }
  }

  lemma StepKeepsBooks(s: State, l: Label)
    requires LifeInv(s) && BooksOk(s) && Enabled(s, l)
    ensures BooksOk(Step(s, l))
  {
    match l
    case NewClient(c) => NewClientBooks(s, c);
    case Start(c, ms, wake) => StartBooks(s, c, ms, wake);
    case Stop(c) => ClientStopBooks(s, c);
    case Destroy(c) => DestroyBooks(s, c);
    case Fetch => FetchBooks(s);
    case MsgStep => MsgEffectBooks(s);
    case _ => OtherBooks(s, l);
  }

  lemma OtherBooks(s: State, l: Label)
    requires BooksOk(s) && Enabled(s, l) && (l.Tick? || l.Wake? || l.PollStep?)
    ensures BooksOk(Step(s, l))
  {
    PollBooks(s, Step(s, l));
  }

  lemma {:induction false} RunKeepsBooks(start: Timespec, ls: seq<Label>)
    ensures BooksOk(Run(start, ls))
  {
    if ls != [] {
      RunKeepsBooks(start, ls[..|ls| - 1]);
      RunKeepsLife(start, ls[..|ls| - 1]);
      var s, l := Run(start, ls[..|ls| - 1]), ls[|ls| - 1];
      if Enabled(s, l) {
        StepKeepsBooks(s, l);
      }
    }
  }

  /** A shared lock counts its living client and that client's undeleted
      delegates, and is freed exactly once: when the last of them goes. */
  lemma LockIsFreedLast(start: Timespec, ls: seq<Label>, c: nat)
    requires c in Run(start, ls).clients
    ensures var s := Run(start, ls); var cl := s.clients[c];
      && cl.lockRef == (if cl.alive then 1 else 0) + |Owned(s, c)|
      && cl.frees <= 1
      && (cl.frees == 1 <==> !cl.alive && Owned(s, c) == {})
  {
    RunKeepsBooks(start, ls);
    var s := Run(start, ls);
    assert LockOk(s, c);
  }

  /** Every successful start is undone by exactly one successful stop, by the
      client or by expiry, unless the timer is still pending; and callbacks are
      the stops made by expiry, less the one that is being delivered. */
  lemma StartsBalance(start: Timespec, ls: seq<Label>, c: nat)
    requires c in Run(start, ls).clients
    ensures var s := Run(start, ls); var cl := s.clients[c];
      && cl.starts == cl.stops + cl.expireStops + (if cl.timer.Some? then 1 else 0)
      && cl.callbacks + (if s.pc.Stopped? && s.pc.client == c then 1 else 0) == cl.expireStops
  {
    RunKeepsBooks(start, ls);
    assert CountsOk(Run(start, ls), c);
  }
}
