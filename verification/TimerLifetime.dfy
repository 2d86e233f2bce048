/** Delegate lifetime: over every run, no delegate is used after it was deleted,
    deleted twice, left behind, or lost while its client still waits for it. */
module TimerLifetime {
  import opened Wrappers
  import opened Rankables
  import opened TimerSystem
  import H = HeapTree

  // ----- the invariant -----

  ghost predicate ObjectOk(s: State, i: nat)
    requires i in s.objects
  {
    var o := s.objects[i];
    && o.d.id == i < s.nextId && o.owner in s.clients
    && o.container == (if o.client.Some? then Some(o.home) else None)
    && (o.client.Some? ==> o.client.value == o.owner && s.clients[o.owner].timer == Some(i))
  }

  ghost predicate ObjectsOk(s: State) {
    forall i :: i in s.objects ==> ObjectOk(s, i)
  }

  ghost predicate ClientsOk(s: State) {
    forall c :: c in s.clients && s.clients[c].timer.Some? ==>
      && s.clients[c].alive
      && s.clients[c].timer.value in s.objects
      && s.objects[s.clients[c].timer.value].client == Some(c)
  }

  /** The delegate is allocated and belongs to container `k`. */
  ghost predicate LiveIn(s: State, k: Kind, d: Delegate) {
    s.Live(d) && s.objects[d.id].home == k
  }

  ghost predicate Detached(s: State, d: Delegate)
    requires s.Live(d)
  {
    s.objects[d.id].client.None?
  }

  ghost predicate MsgOk(s: State, m: Msg) {
    !m.Expire? ==> LiveIn(s, m.c, m.d) && (m.Remove? ==> Detached(s, m.d))
  }

  /** One Push and one Remove per delegate at most, the Push first. */
  ghost predicate Sequenced(q: seq<Msg>) {
    forall i, j :: 0 <= i < j < |q| && !q[i].Expire? ==>
      q[i] != q[j] && (q[i].Remove? ==> q[j] != Push(q[i].c, q[i].d))
  }

  ghost predicate QueueOk(s: State) {
    Sequenced(s.queue) && forall m :: m in s.queue ==> MsgOk(s, m)
  }

  ghost predicate InHeap(s: State, k: Kind, d: Delegate) {
    d in H.Elements(s.Heap(k))
  }

  ghost predicate HeapOk(s: State, k: Kind) {
    && H.IsHeap(s.Heap(k))
    && forall d :: InHeap(s, k, d) ==>
         && H.Elements(s.Heap(k))[d] == 1
         && LiveIn(s, k, d) && Push(k, d) !in s.queue
  }

  /** Neither in its heap nor on the way into it. */
  ghost predicate Out(s: State, k: Kind, d: Delegate) {
    LiveIn(s, k, d) && !InHeap(s, k, d) && Push(k, d) !in s.queue
  }

  function Victim(pc: Pc): Option<Delegate> {
    match pc
    case Update(_, _, _, v) => v
    case Deleting(d) => Some(d)
    case _ => None
  }

  ghost predicate PcOk(s: State) {
    && (s.pc.Popped? ==> Out(s, s.pc.c, s.pc.d))
    && (s.pc.Stopped? ==> s.pc.client in s.clients)
    && (Victim(s.pc).Some? ==> VictimOk(s, Victim(s.pc).value))
  }

  ghost predicate VictimOk(s: State, d: Delegate) {
    && s.Live(d) && Detached(s, d)
    && var k := s.objects[d.id].home; Out(s, k, d) && Remove(k, d) !in s.queue
  }

  /** A detached delegate is about to be deleted; an attached one is on its way
      into the heap, in it, or popped and about to be expired. */
  ghost predicate Accounted(s: State, i: nat)
    requires i in s.objects
  {
    var o := s.objects[i];
    if o.client.None? then Remove(o.home, o.d) in s.queue || Victim(s.pc) == Some(o.d)
    else Push(o.home, o.d) in s.queue || InHeap(s, o.home, o.d) || (s.pc.Popped? && s.pc.d == o.d)
  }

  ghost predicate AllAccounted(s: State) {
    forall i :: i in s.objects ==> Accounted(s, i)
  }

  ghost predicate LifeInv(s: State) {
    && ObjectsOk(s) && ClientsOk(s) && QueueOk(s)
    && HeapOk(s, Sw) && HeapOk(s, Hw) && PcOk(s) && AllAccounted(s)
  }

  // ----- steps that leave objects, heaps and messages to delegates alone -----

  ghost predicate SameLife(s: State, u: State) {
    && u.objects == s.objects && u.nextId == s.nextId && u.pc == s.pc && u.queue == s.queue
    && u.sw.heap == s.sw.heap && u.hw.heap == s.hw.heap
    && forall c :: c in s.clients ==> c in u.clients && u.clients[c].timer == s.clients[c].timer
  }

  lemma SameLifeKeeps(s: State, u: State)
    requires LifeInv(s) && SameLife(s, u) && ClientsOk(u)
    ensures LifeInv(u)
  {
    assert ObjectsOk(u) by {
      forall i | i in u.objects ensures ObjectOk(u, i) { assert ObjectOk(s, i); }
    }
    assert forall k: Kind :: u.Heap(k) == s.Heap(k);
    assert QueueOk(u) by {
      assert forall m :: MsgOk(u, m) == MsgOk(s, m);
    }
    assert forall k: Kind, d :: InHeap(u, k, d) == InHeap(s, k, d) && LiveIn(u, k, d) == LiveIn(s, k, d);
    assert AllAccounted(u) by {
      forall i | i in u.objects ensures Accounted(u, i) { assert Accounted(s, i); }
    }
  }

  // ----- start -----

  ghost predicate Adds(s: State, u: State, o: Object) {
    && o.d.id == s.nextId && u.nextId == s.nextId + 1 && o.client.Some? && o.container == Some(o.home)
    && u.objects == s.objects[o.d.id := o]
    && u.queue == s.queue + [Push(o.home, o.d)]
    && u.pc == s.pc && u.sw.heap == s.sw.heap && u.hw.heap == s.hw.heap
  }

  lemma SequencedSnoc(q: seq<Msg>, m: Msg)
    requires Sequenced(q)
    requires !m.Expire? ==> m !in q
    requires m.Push? ==> Remove(m.c, m.d) !in q
    ensures Sequenced(q + [m])
  {
  }

  /** Messages are about delegates that have a number already. */
  lemma QueuedAreOlder(s: State)
    requires ObjectsOk(s) && QueueOk(s)
    ensures forall x :: x in s.queue && !x.Expire? ==> x.d.id < s.nextId
  {
    forall x | x in s.queue && !x.Expire? ensures x.d.id < s.nextId {
      assert MsgOk(s, x) && ObjectOk(s, x.d.id);
    }
  }

  lemma AddKeepsQueue(s: State, u: State, o: Object)
    requires ObjectsOk(s) && QueueOk(s) && Adds(s, u, o)
    ensures QueueOk(u)
  {
    var m := Push(o.home, o.d);
    QueuedAreOlder(s);
    SequencedSnoc(s.queue, m);
    forall x | x in u.queue ensures MsgOk(u, x) {
      if x != m { assert MsgOk(s, x); }
    }
  }

  lemma AddKeepsHeap(s: State, u: State, o: Object, k: Kind)
    requires ObjectsOk(s) && HeapOk(s, k) && Adds(s, u, o)
    ensures HeapOk(u, k)
  {
    assert u.Heap(k) == s.Heap(k);
    forall d | InHeap(u, k, d)
      ensures H.Elements(u.Heap(k))[d] == 1 && LiveIn(u, k, d) && Push(k, d) !in u.queue
    {
      assert InHeap(s, k, d) && ObjectOk(s, d.id);
    }
  }

  lemma AddKeepsOut(s: State, u: State, o: Object, k: Kind, d: Delegate)
    requires ObjectsOk(s) && Adds(s, u, o) && Out(s, k, d)
    ensures Out(u, k, d)
  {
    assert u.Heap(k) == s.Heap(k) && ObjectOk(s, d.id);
  }

  lemma AddKeepsPc(s: State, u: State, o: Object)
    requires ObjectsOk(s) && PcOk(s) && Adds(s, u, o) && s.clients.Keys <= u.clients.Keys
    ensures PcOk(u)
  {
    if s.pc.Popped? {
      AddKeepsOut(s, u, o, s.pc.c, s.pc.d);
    }
    if Victim(s.pc).Some? {
      var d := Victim(s.pc).value;
      assert VictimOk(s, d) && ObjectOk(s, d.id);
      AddKeepsOut(s, u, o, s.objects[d.id].home, d);
    }
  }

  lemma AddKeepsAccounted(s: State, u: State, o: Object)
    requires ObjectsOk(s) && AllAccounted(s) && Adds(s, u, o)
    ensures AllAccounted(u)
  {
    forall i | i in u.objects ensures Accounted(u, i) {
      if i != o.d.id {
        assert Accounted(s, i) && u.Heap(s.objects[i].home) == s.Heap(s.objects[i].home);
      }
    }
  }

  lemma StartKeepsLinks(s: State, c: nat, ms: nat, wake: bool)
    requires ObjectsOk(s) && ClientsOk(s) && c in s.clients && s.clients[c].alive
    ensures ObjectsOk(StartTimer(s, c, ms, wake)) && ClientsOk(StartTimer(s, c, ms, wake))
  {
    var u := StartTimer(s, c, ms, wake);
    forall i | i in u.objects ensures ObjectOk(u, i) {
      assert i in s.objects ==> ObjectOk(s, i);
    }
    assert s.nextId in s.objects ==> ObjectOk(s, s.nextId);
  }

  lemma StartKeeps(s: State, c: nat, ms: nat, wake: bool)
    requires LifeInv(s) && c in s.clients && s.clients[c].alive
    ensures LifeInv(StartTimer(s, c, ms, wake))
  {
    var u := StartTimer(s, c, ms, wake);
    if s.clients[c].timer.None? {
      var o := u.objects[s.nextId];
      StartKeepsLinks(s, c, ms, wake);
      AddKeepsQueue(s, u, o);
      AddKeepsHeap(s, u, o, Sw);
      AddKeepsHeap(s, u, o, Hw);
      AddKeepsPc(s, u, o);
      AddKeepsAccounted(s, u, o);
    }
  }

  // ----- stop -----

  ghost predicate Detaches(s: State, u: State, i: nat) {
    && i in s.objects && s.objects[i].client.Some?
    && var o := s.objects[i];
    && u.objects == s.objects[i := o.(client := None, container := None)]
    && u.queue == s.queue + [Remove(o.home, o.d)]
    && u.pc == s.pc && u.nextId == s.nextId && u.sw.heap == s.sw.heap && u.hw.heap == s.hw.heap
  }

  lemma StopShape(s: State, c: nat, byExpire: bool)
    requires ObjectsOk(s) && ClientsOk(s) && c in s.clients
    ensures var u := StopTimer(CountStop(s, c, byExpire), c);
      && ObjectsOk(u) && ClientsOk(u)
      && u.clients.Keys == s.clients.Keys
      && (s.clients[c].timer.None? ==> u == s)
      && (s.clients[c].timer.Some? ==> Detaches(s, u, s.clients[c].timer.value))
      && u.clients[c].timer.None?
  {
    var u := StopTimer(CountStop(s, c, byExpire), c);
    if s.clients[c].timer.Some? {
      var i := s.clients[c].timer.value;
      assert ObjectOk(s, i);
      forall j | j in u.objects ensures ObjectOk(u, j) {
        assert ObjectOk(s, j);
      }
    }
  }

  lemma DetachKeepsQueue(s: State, u: State, i: nat)
    requires ObjectsOk(s) && QueueOk(s) && Detaches(s, u, i)
    ensures QueueOk(u)
  {
    var o := s.objects[i];
    var m := Remove(o.home, o.d);
    assert ObjectOk(s, i);
    assert m in s.queue ==> MsgOk(s, m);
    SequencedSnoc(s.queue, m);
    forall x | x in u.queue ensures MsgOk(u, x) {
      assert x in s.queue ==> MsgOk(s, x);
    }
  }

  lemma DetachKeepsHeap(s: State, u: State, i: nat, k: Kind)
    requires ObjectsOk(s) && HeapOk(s, k) && Detaches(s, u, i)
    ensures HeapOk(u, k)
  {
    assert u.Heap(k) == s.Heap(k);
    forall d | InHeap(u, k, d)
      ensures H.Elements(u.Heap(k))[d] == 1 && LiveIn(u, k, d) && Push(k, d) !in u.queue
    {
      assert InHeap(s, k, d);
    }
  }

  lemma DetachKeepsPc(s: State, u: State, i: nat)
    requires ObjectsOk(s) && PcOk(s) && Detaches(s, u, i) && s.clients.Keys <= u.clients.Keys
    ensures PcOk(u)
  {
    assert forall k: Kind :: u.Heap(k) == s.Heap(k);
    if Victim(s.pc).Some? {
      var d := Victim(s.pc).value;
      assert VictimOk(s, d) && ObjectOk(s, d.id) && ObjectOk(s, i);
    }
  }

  lemma DetachKeepsAccounted(s: State, u: State, i: nat)
    requires ObjectsOk(s) && AllAccounted(s) && Detaches(s, u, i)
    ensures AllAccounted(u)
  {
    forall j | j in u.objects ensures Accounted(u, j) {
      assert Accounted(s, j) && u.Heap(s.objects[j].home) == s.Heap(s.objects[j].home);
    }
  }

  lemma StopKeeps(s: State, c: nat, byExpire: bool)
    requires LifeInv(s) && c in s.clients
    ensures LifeInv(StopTimer(CountStop(s, c, byExpire), c))
  {
    var u := StopTimer(CountStop(s, c, byExpire), c);
    StopShape(s, c, byExpire);
    if s.clients[c].timer.Some? {
      var i := s.clients[c].timer.value;
      DetachKeepsQueue(s, u, i);
      DetachKeepsHeap(s, u, i, Sw);
      DetachKeepsHeap(s, u, i, Hw);
      DetachKeepsPc(s, u, i);
      DetachKeepsAccounted(s, u, i);
    }
  }

  lemma DestroyKeeps(s: State, c: nat)
    requires LifeInv(s) && c in s.clients
    ensures LifeInv(DestroyTimer(s, c))
  {
    StopShape(s, c, false);
    StopKeeps(s, c, false);
    SameLifeKeeps(StopTimer(CountStop(s, c, false), c), DestroyTimer(s, c));
  }

  // ----- the message thread takes a message -----

  lemma InTail(q: seq<Msg>)
    requires q != []
    ensures forall m :: m in q <==> m == q[0] || m in q[1..]
  {
    assert q == [q[0]] + q[1..];
  }

  lemma TailKeepsQueue(s: State, u: State)
    requires QueueOk(s) && s.queue != [] && u.queue == s.queue[1..] && u.objects == s.objects
    ensures QueueOk(u)
  {
    InTail(s.queue);
    forall m | m in u.queue ensures MsgOk(u, m) {
      assert MsgOk(s, m);
    }
  }

  /** The head message is not repeated, and no Push follows a Remove. */
  lemma HeadIsLast(s: State)
    requires QueueOk(s) && s.queue != [] && !s.queue[0].Expire?
    ensures s.queue[0] !in s.queue[1..]
    ensures s.queue[0].Remove? ==> Push(s.queue[0].c, s.queue[0].d) !in s.queue[1..]
  {
  }

  /** A heap that neither gains nor duplicates elements stays fine when the
      queue shrinks. */
  lemma ShrinkKeepsHeap(s: State, u: State, k: Kind)
    requires HeapOk(s, k) && u.objects == s.objects
    requires forall m :: m in u.queue ==> m in s.queue
    requires H.IsHeap(u.Heap(k)) && H.Elements(u.Heap(k)) <= H.Elements(s.Heap(k))
    ensures HeapOk(u, k)
  {
    forall d | InHeap(u, k, d)
      ensures H.Elements(u.Heap(k))[d] == 1 && LiveIn(u, k, d) && Push(k, d) !in u.queue
    {
      assert InHeap(s, k, d);
    }
  }

  /** What every fetch has in common. */
  ghost predicate Fetches(s: State, u: State) {
    && s.pc == Idle && s.queue != [] && u.queue == s.queue[1..]
    && u.objects == s.objects && u.clients == s.clients && u.nextId == s.nextId
  }

  lemma FetchKeepsLinks(s: State, u: State)
    requires LifeInv(s) && Fetches(s, u)
    ensures ObjectsOk(u) && ClientsOk(u) && QueueOk(u)
  {
    forall i | i in u.objects ensures ObjectOk(u, i) { assert ObjectOk(s, i); }
    TailKeepsQueue(s, u);
  }

  lemma UpdateShape(s: State, k: Kind, priorTop: Option<Delegate>, victim: Option<Delegate>)
    ensures var u := BeginUpdate(s, k, priorTop, victim);
      u == s.(pc := u.pc) && Victim(u.pc) == victim && !u.pc.Popped? && !u.pc.Stopped?
  {
  }

  lemma FetchPushHeap(s: State, u: State)
    requires LifeInv(s) && Fetches(s, u) && s.queue[0].Push?
    requires var k := s.queue[0].c; u.Heap(k) == H.Push(s.Heap(k), s.queue[0].d)
    ensures HeapOk(u, s.queue[0].c)
  {
    var k, d := s.queue[0].c, s.queue[0].d;
    InTail(s.queue);
    HeadIsLast(s);
    H.PushKeepsHeap(s.Heap(k), d);
    H.PushConserves(s.Heap(k), d);
    assert MsgOk(s, s.queue[0]);
    assert !InHeap(s, k, d);
    forall e | InHeap(u, k, e)
      ensures H.Elements(u.Heap(k))[e] == 1 && LiveIn(u, k, e) && Push(k, e) !in u.queue
    {
      assert e != d ==> InHeap(s, k, e);
    }
  }

  lemma FetchPushAccounted(s: State, u: State)
    requires LifeInv(s) && Fetches(s, u) && s.queue[0].Push?
    requires var k := s.queue[0].c; u.Heap(k) == H.Push(s.Heap(k), s.queue[0].d)
    requires forall k :: k != s.queue[0].c ==> u.Heap(k) == s.Heap(k)
    ensures AllAccounted(u)
  {
    var k, d := s.queue[0].c, s.queue[0].d;
    InTail(s.queue);
    H.PushConserves(s.Heap(k), d);
    forall i | i in u.objects ensures Accounted(u, i) {
      assert Accounted(s, i);
      assert InHeap(s, s.objects[i].home, s.objects[i].d) ==> InHeap(u, s.objects[i].home, s.objects[i].d);
    }
  }

  ghost predicate FetchesPush(s: State, u: State) {
    && Fetches(s, u) && s.queue[0].Push?
    && (var k := s.queue[0].c; u.Heap(k) == H.Push(s.Heap(k), s.queue[0].d))
    && (forall k :: k != s.queue[0].c ==> u.Heap(k) == s.Heap(k))
    && Victim(u.pc).None? && !u.pc.Popped? && !u.pc.Stopped?
  }

  lemma FetchPushShape(s: State)
    requires s.pc == Idle && s.queue != [] && s.queue[0].Push?
    ensures FetchesPush(s, FetchMsg(s))
  {
    var k, d := s.queue[0].c, s.queue[0].d;
    UpdateShape(s.(queue := s.queue[1..]).WithHeap(k, H.Push(s.Heap(k), d)), k, H.Peek(s.Heap(k)), None);
  }

  lemma FetchPushKeeps(s: State)
    requires LifeInv(s) && s.pc == Idle && s.queue != [] && s.queue[0].Push?
    ensures LifeInv(FetchMsg(s))
  {
    FetchPushShape(s);
    FetchedPushKeeps(s, FetchMsg(s));
  }

  lemma FetchedPushKeeps(s: State, u: State)
    requires LifeInv(s) && FetchesPush(s, u)
    ensures LifeInv(u)
  {
    FetchKeepsLinks(s, u);
    InTail(s.queue);
    ShrinkKeepsHeap(s, u, if s.queue[0].c == Sw then Hw else Sw);
    FetchPushHeap(s, u);
    FetchPushAccounted(s, u);
  }

  /** What fetching a Remove does, whichever way the update is decided. */
  ghost predicate FetchesRemove(s: State, u: State) {
    && Fetches(s, u) && s.queue[0].Remove?
    && (var k := s.queue[0].c;
        && H.IsHeap(u.Heap(k))
        && H.Elements(u.Heap(k)) == H.Elements(s.Heap(k)) - multiset{s.queue[0].d}
        && forall j :: j != k ==> u.Heap(j) == s.Heap(j))
    && Victim(u.pc) == Some(s.queue[0].d) && !u.pc.Popped? && !u.pc.Stopped?
  }

  lemma FetchRemoveForm(s: State)
    requires s.pc == Idle && s.queue != [] && s.queue[0].Remove?
    ensures var u, k, d := FetchMsg(s), s.queue[0].c, s.queue[0].d;
      && Fetches(s, u) && u.Heap(k) == H.AfterRemove(s.Heap(k), d)
      && (forall j :: j != k ==> u.Heap(j) == s.Heap(j))
      && Victim(u.pc) == Some(d) && !u.pc.Popped? && !u.pc.Stopped?
  {
    var k, d := s.queue[0].c, s.queue[0].d;
    UpdateShape(s.(queue := s.queue[1..]).WithHeap(k, H.AfterRemove(s.Heap(k), d)), k, None, Some(d));
  }

  lemma FetchRemoveShape(s: State)
    requires s.pc == Idle && s.queue != [] && s.queue[0].Remove?
    requires HeapOk(s, s.queue[0].c)
    ensures FetchesRemove(s, FetchMsg(s))
  {
    var t, d := s.Heap(s.queue[0].c), s.queue[0].d;
    assert H.IsHeap(t);
    H.RemoveIsExact(t, d);
    FetchRemoveForm(s);
  }

  lemma FetchRemoveVictim(s: State, u: State)
    requires LifeInv(s) && FetchesRemove(s, u)
    ensures VictimOk(u, s.queue[0].d)
  {
    var k, d := s.queue[0].c, s.queue[0].d;
    InTail(s.queue);
    HeadIsLast(s);
    assert MsgOk(s, s.queue[0]);
    assert InHeap(s, k, d) ==> H.Elements(s.Heap(k))[d] == 1;
  }

  lemma FetchRemoveAccountsFor(s: State, u: State, i: nat)
    requires ObjectsOk(s) && QueueOk(s) && FetchesRemove(s, u) && i in s.objects && Accounted(s, i)
    ensures Accounted(u, i)
  {
    var d, o := s.queue[0].d, s.objects[i];
    InTail(s.queue);
    assert MsgOk(s, s.queue[0]) && ObjectOk(s, i) && ObjectOk(s, d.id);
    if o.client.Some? {
      assert o.d != d;
      OthersStayInHeap(s, u, o.home, o.d);
      assert Push(o.home, o.d) in s.queue ==> Push(o.home, o.d) in u.queue;
    } else {
      assert Remove(o.home, o.d) in s.queue && o.d != d ==> Remove(o.home, o.d) in u.queue;
    }
  }

  lemma OthersStayInHeap(s: State, u: State, k: Kind, d: Delegate)
    requires FetchesRemove(s, u) && d != s.queue[0].d
    ensures InHeap(s, k, d) ==> InHeap(u, k, d)
  {
  }

  lemma FetchRemoveKeepsHeaps(s: State, u: State)
    requires HeapOk(s, Sw) && HeapOk(s, Hw) && FetchesRemove(s, u)
    ensures HeapOk(u, Sw) && HeapOk(u, Hw)
  {
    InTail(s.queue);
    ShrinkKeepsHeap(s, u, Sw);
    ShrinkKeepsHeap(s, u, Hw);
  }

  lemma FetchRemoveKeeps(s: State)
    requires LifeInv(s) && s.pc == Idle && s.queue != [] && s.queue[0].Remove?
    ensures LifeInv(FetchMsg(s))
  {
    var u := FetchMsg(s);
    FetchRemoveShape(s);
    FetchKeepsLinks(s, u);
    FetchRemoveKeepsHeaps(s, u);
    FetchRemoveVictim(s, u);
    forall i | i in u.objects ensures Accounted(u, i) {
      assert Accounted(s, i);
      FetchRemoveAccountsFor(s, u, i);
    }
  }

  /** Taking the top off a heap, for an Expire message or inside its loop. */
  ghost predicate Pops(s: State, u: State, k: Kind) {
    && s.Heap(k).Node? && u.Heap(k) == H.Pop(s.Heap(k))
    && u.pc.Popped? && u.pc.c == k && u.pc.d == s.Heap(k).data
    && u.objects == s.objects
    && (forall j :: j != k ==> u.Heap(j) == s.Heap(j))
    && (forall m :: m in u.queue ==> m in s.queue)
    && (forall m :: m in s.queue && !m.Expire? ==> m in u.queue)
  }

  lemma PopKeeps(s: State, u: State, k: Kind)
    requires HeapOk(s, Sw) && HeapOk(s, Hw) && AllAccounted(s)
    requires Pops(s, u, k) && !s.pc.Popped? && Victim(s.pc).None?
    ensures HeapOk(u, Sw) && HeapOk(u, Hw) && PcOk(u) && AllAccounted(u)
  {
    PopKeepsHeaps(s, u, k);
    PoppedIsOut(s, u, k);
    forall i | i in u.objects ensures Accounted(u, i) {
      PopAccountsFor(s, u, k, i);
    }
  }

  lemma PopKeepsHeaps(s: State, u: State, k: Kind)
    requires HeapOk(s, Sw) && HeapOk(s, Hw) && Pops(s, u, k)
    ensures HeapOk(u, Sw) && HeapOk(u, Hw)
  {
    H.PopKeepsHeap(s.Heap(k));
    H.PopConserves(s.Heap(k));
    ShrinkKeepsHeap(s, u, Sw);
    ShrinkKeepsHeap(s, u, Hw);
  }

  /** The popped delegate was in its heap once, so it is in it no more. */
  lemma PoppedIsOut(s: State, u: State, k: Kind)
    requires HeapOk(s, k) && Pops(s, u, k)
    ensures Out(u, k, u.pc.d) && PcOk(u)
  {
    H.PopConserves(s.Heap(k));
    assert InHeap(s, k, u.pc.d);
  }

  lemma PopAccountsFor(s: State, u: State, k: Kind, i: nat)
    requires i in s.objects && Accounted(s, i) && Pops(s, u, k) && !s.pc.Popped? && Victim(s.pc).None?
    ensures Accounted(u, i)
  {
    var o := s.objects[i];
    H.PopConserves(s.Heap(k));
    assert InHeap(s, o.home, o.d) && o.d != u.pc.d ==> InHeap(u, o.home, o.d);
  }

  lemma FetchExpireKeeps(s: State)
    requires LifeInv(s) && s.pc == Idle && s.queue != [] && s.queue[0].Expire?
    ensures LifeInv(FetchMsg(s))
  {
    var u, k := FetchMsg(s), s.queue[0].c;
    InTail(s.queue);
    UpdateShape(s.(queue := s.queue[1..]), k, None, None);
    FetchKeepsLinks(s, u);
    if s.Heap(k).Node? {
      PopKeeps(s, u, k);
    } else {
      ShrinkKeepsHeap(s, u, Sw);
      ShrinkKeepsHeap(s, u, Hw);
      forall i | i in u.objects ensures Accounted(u, i) { assert Accounted(s, i); }
    }
  }

  // ----- the other effects of the message thread -----

  /** Only the program counter and kernel state move. */
  lemma PcMoveKeeps(s: State, u: State)
    requires LifeInv(s) && SameLife(s, u.(pc := s.pc)) && u.clients == s.clients
    requires !u.pc.Popped? && Victim(u.pc) == Victim(s.pc) && (u.pc.Stopped? ==> u.pc.client in s.clients)
    requires s.pc.Popped? ==> s.Live(s.pc.d) && Detached(s, s.pc.d)
    ensures LifeInv(u)
  {
    SameLifeKeeps(s, u.(pc := s.pc));
    var v := u.(pc := s.pc);
    forall i | i in u.objects ensures ObjectOk(u, i) { assert ObjectOk(s, i); }
    assert QueueOk(u) by { forall m | m in u.queue ensures MsgOk(u, m) { assert MsgOk(s, m); } }
    assert HeapOk(u, Sw) by { assert HeapOk(v, Sw) && u.Heap(Sw) == v.Heap(Sw); HeapOkFrame(v, u, Sw); }
    assert HeapOk(u, Hw) by { assert HeapOk(v, Hw) && u.Heap(Hw) == v.Heap(Hw); HeapOkFrame(v, u, Hw); }
    if Victim(u.pc).Some? {
      assert VictimOk(s, Victim(u.pc).value);
      assert forall k: Kind :: u.Heap(k) == s.Heap(k);
    }
    forall i | i in u.objects ensures Accounted(u, i) {
      assert Accounted(s, i) && u.Heap(s.objects[i].home) == s.Heap(s.objects[i].home);
    }
  }

  lemma HeapOkFrame(s: State, u: State, k: Kind)
    requires HeapOk(s, k) && u.objects == s.objects && u.queue == s.queue && u.Heap(k) == s.Heap(k)
    ensures HeapOk(u, k)
  {
    ShrinkKeepsHeap(s, u, k);
  }

  lemma DeleteKeepsQueue(s: State, u: State, d: Delegate)
    requires ObjectsOk(s) && QueueOk(s) && VictimOk(s, d)
    requires u.objects == s.objects - {d.id} && u.queue == s.queue
    ensures QueueOk(u)
  {
    assert ObjectOk(s, d.id);
    forall m | m in u.queue ensures MsgOk(u, m) {
      assert MsgOk(s, m);
      assert !m.Expire? ==> m.d != d;
    }
  }

  lemma DeleteKeepsHeap(s: State, u: State, d: Delegate, k: Kind)
    requires ObjectsOk(s) && HeapOk(s, k) && VictimOk(s, d)
    requires u.objects == s.objects - {d.id} && u.queue == s.queue && u.Heap(k) == s.Heap(k)
    ensures HeapOk(u, k)
  {
    forall e | InHeap(u, k, e)
      ensures H.Elements(u.Heap(k))[e] == 1 && LiveIn(u, k, e) && Push(k, e) !in u.queue
    {
      assert InHeap(s, k, e) && (e.id == d.id ==> e == d);
    }
  }

  lemma DeleteKeeps(s: State)
    requires LifeInv(s) && s.pc.Deleting?
    ensures s.Live(s.pc.d) && LifeInv(MsgEffect(s))
  {
    var u, d := MsgEffect(s), s.pc.d;
    assert VictimOk(s, d) && ObjectOk(s, d.id);
    DeleteShape(s);
    DeleteKeepsQueue(s, u, d);
    DeleteKeepsHeap(s, u, d, Sw);
    DeleteKeepsHeap(s, u, d, Hw);
    DeleteKeepsObjects(s, u, d);
  }

  /** One object goes, and only the books of a client change besides. */
  ghost predicate Deletes(s: State, u: State, d: Delegate) {
    && d.id in s.objects && u.objects == s.objects - {d.id} && u.pc == Idle
    && u.queue == s.queue && u.sw == s.sw && u.hw == s.hw && u.nextId == s.nextId
    && u.clients.Keys == s.clients.Keys
    && forall c :: c in s.clients ==> u.clients[c].timer == s.clients[c].timer && u.clients[c].alive == s.clients[c].alive
  }

  lemma DeleteShape(s: State)
    requires s.pc.Deleting? && s.pc.d.id in s.objects
    ensures Deletes(s, MsgEffect(s), s.pc.d)
  {
  }

  lemma DeleteKeepsObjects(s: State, u: State, d: Delegate)
    requires ObjectsOk(s) && ClientsOk(s) && AllAccounted(s) && VictimOk(s, d) && Victim(s.pc) == Some(d)
    requires Deletes(s, u, d)
    ensures ObjectsOk(u) && ClientsOk(u) && AllAccounted(u)
  {
    assert ObjectOk(s, d.id);
    forall i | i in u.objects ensures ObjectOk(u, i) && Accounted(u, i) {
      assert ObjectOk(s, i) && Accounted(s, i) && u.Heap(s.objects[i].home) == s.Heap(s.objects[i].home);
    }
  }

  /** The stop of a popped delegate's client, or nothing if it has none any more. */
  lemma PoppedForm(s: State)
    requires LifeInv(s) && s.pc.Popped?
    ensures s.pc.d.id in s.objects
    ensures var client := s.objects[s.pc.d.id].client;
      && (client.None? ==> MsgEffect(s) == s.(pc := Scan(s.pc.c, s.pc.now)))
      && (client.Some? ==>
            var c := client.value;
            c in s.clients
            && MsgEffect(s) == StopTimer(CountStop(s, c, true), c).(pc := Stopped(s.pc.c, s.pc.now, c)))
  {
    assert ObjectOk(s, s.pc.d.id);
  }

  lemma PoppedKeeps(s: State)
    requires LifeInv(s) && s.pc.Popped?
    ensures LifeInv(MsgEffect(s))
  {
    var u, d := MsgEffect(s), s.pc.d;
    assert ObjectOk(s, d.id);
    var client := s.objects[d.id].client;
    if client.Some? {
      var c := client.value;
      StopShape(s, c, true);
      StopKeeps(s, c, true);
      PcMoveKeeps(StopTimer(CountStop(s, c, true), c), u);
    } else {
      PcMoveKeeps(s, u);
    }
  }

  lemma ScanKeeps(s: State)
    requires LifeInv(s) && s.pc.Scan?
    ensures LifeInv(MsgEffect(s))
  {
    var u := MsgEffect(s);
    if TakesTop(s.Heap(s.pc.c), s.pc.now) {
      PopKeeps(s, u, s.pc.c);
      forall i | i in u.objects ensures ObjectOk(u, i) { assert ObjectOk(s, i); }
      forall m | m in u.queue ensures MsgOk(u, m) { assert MsgOk(s, m); }
    } else {
      UpdateShape(s, s.pc.c, None, None);
      PcMoveKeeps(s, u);
    }
  }

  lemma MsgEffectKeeps(s: State)
    requires LifeInv(s) && s.pc != Idle
    ensures LifeInv(MsgEffect(s))
  {
    match s.pc
    case Update(_, _, _, _) => KernelCallKeeps(s);
    case Deleting(_) => DeleteKeeps(s);
    case Popped(_, _, _) => PoppedKeeps(s);
    case Stopped(_, _, _) => CallbackKeeps(s);
    case Scan(_, _) => ScanKeeps(s);
  }

  lemma KernelCallIsQuiet(s: State)
    requires s.pc.Update?
    ensures var u := MsgEffect(s);
      && SameLife(s, u.(pc := s.pc)) && u.clients == s.clients
      && !u.pc.Popped? && !u.pc.Stopped? && Victim(u.pc) == Victim(s.pc)
  {
  }

  lemma KernelCallKeeps(s: State)
    requires LifeInv(s) && s.pc.Update?
    ensures LifeInv(MsgEffect(s))
  {
    KernelCallIsQuiet(s);
    PcMoveKeeps(s, MsgEffect(s));
  }

  lemma CallbackKeeps(s: State)
    requires LifeInv(s) && s.pc.Stopped?
    ensures LifeInv(MsgEffect(s))
  {
    var u := MsgEffect(s);
    SameLifeKeeps(s, u.(pc := s.pc));
    PcMoveKeeps(u.(pc := s.pc), u);
  }

  // ----- the poll thread -----

  lemma SendExpireKeeps(s: State, u: State, k: Kind)
    requires LifeInv(s) && SameLife(s, u.(queue := s.queue)) && u.queue == s.queue + [Expire(k)]
    requires u.clients == s.clients
    ensures LifeInv(u)
  {
    SendExpireKeepsObjects(s, u, k);
    SendExpireKeepsQueue(s, u, k);
    SendExpireKeepsHeap(s, u, k, Sw);
    SendExpireKeepsHeap(s, u, k, Hw);
    SendExpireKeepsPc(s, u, k);
  }

  lemma SendExpireKeepsObjects(s: State, u: State, k: Kind)
    requires ObjectsOk(s) && AllAccounted(s) && SameLife(s, u.(queue := s.queue))
    requires u.queue == s.queue + [Expire(k)] && u.clients == s.clients
    ensures ObjectsOk(u) && AllAccounted(u)
  {
    forall i | i in u.objects ensures ObjectOk(u, i) && Accounted(u, i) {
      assert ObjectOk(s, i) && Accounted(s, i) && u.Heap(s.objects[i].home) == s.Heap(s.objects[i].home);
    }
  }

  lemma SendExpireKeepsQueue(s: State, u: State, k: Kind)
    requires QueueOk(s) && u.objects == s.objects && u.queue == s.queue + [Expire(k)]
    ensures QueueOk(u)
  {
    SequencedSnoc(s.queue, Expire(k));
    forall m | m in u.queue ensures MsgOk(u, m) { assert m in s.queue ==> MsgOk(s, m); }
  }

  lemma SendExpireKeepsPc(s: State, u: State, k: Kind)
    requires PcOk(s) && SameLife(s, u.(queue := s.queue))
    requires u.queue == s.queue + [Expire(k)] && u.clients == s.clients
    ensures PcOk(u)
  {
    assert forall j: Kind :: u.Heap(j) == s.Heap(j);
    if Victim(s.pc).Some? {
      assert VictimOk(s, Victim(s.pc).value);
    }
  }

  lemma SendExpireKeepsHeap(s: State, u: State, k: Kind, j: Kind)
    requires HeapOk(s, j) && u.objects == s.objects && u.queue == s.queue + [Expire(k)] && u.Heap(j) == s.Heap(j)
    ensures HeapOk(u, j)
  {
    forall d | InHeap(u, j, d)
      ensures H.Elements(u.Heap(j))[d] == 1 && LiveIn(u, j, d) && Push(j, d) !in u.queue
    {
      assert InHeap(s, j, d);
    }
  }

  lemma PollEffectKeeps(s: State)
    requires LifeInv(s) && s.poll.pending != []
    ensures LifeInv(PollEffect(s))
  {
    if s.poll.phase == 0 || s.poll.phase == 1 {
      SameLifeKeeps(s, PollEffect(s));
    } else {
      SendExpireKeeps(s, PollEffect(s), s.poll.pending[0]);
    }
  }

  // ----- every step, every run -----

  lemma StepKeepsLife(s: State, l: Label)
    requires LifeInv(s) && Enabled(s, l)
    ensures LifeInv(Step(s, l))
  {
    match l
    case NewClient(c) => SameLifeKeeps(s, Step(s, l));
    case Start(c, ms, wake) => StartKeeps(s, c, ms, wake);
    case Stop(c) => StopKeeps(s, c, false);
    case Destroy(c) => DestroyKeeps(s, c);
    case Tick(t) => SameLifeKeeps(s, Step(s, l));
    case Fetch =>
      if s.queue[0].Push? {
        FetchPushKeeps(s);
      } else if s.queue[0].Remove? {
        FetchRemoveKeeps(s);
      } else {
        FetchExpireKeeps(s);
      }
    case MsgStep => MsgEffectKeeps(s);
    case Wake(evs) => SameLifeKeeps(s, Step(s, l));
    case PollStep => PollEffectKeeps(s);
  }

  lemma {:induction false} RunKeepsLife(start: Timespec, ls: seq<Label>)
    ensures LifeInv(Run(start, ls))
  {
    if ls != [] {
      RunKeepsLife(start, ls[..|ls| - 1]);
      var s, l := Run(start, ls[..|ls| - 1]), ls[|ls| - 1];
      if Enabled(s, l) {
        StepKeepsLife(s, l);
      }
    }
  }

  // ----- what it means -----

  lemma HeapIdsLive(s: State, k: Kind)
    requires HeapOk(s, k)
    ensures HeapIds(s.Heap(k)) <= s.objects.Keys
  {
    forall i | i in HeapIds(s.Heap(k)) ensures i in s.objects {
      var d :| d in H.Elements(s.Heap(k)) && d.id == i;
      assert InHeap(s, k, d);
    }
  }

  lemma MsgTouchesLive(s: State, m: Msg)
    requires HeapOk(s, m.c) && MsgOk(s, m)
    ensures TouchedByMsg(s, m) <= s.objects.Keys
  {
    HeapIdsLive(s, m.c);
  }

  lemma PcTouchesLive(s: State)
    requires LifeInv(s)
    ensures TouchedByPc(s, s.pc) <= s.objects.Keys
  {
    if s.pc.Deleting? {
      assert VictimOk(s, s.pc.d);
    } else if s.pc.Scan? {
      assert HeapOk(s, s.pc.c);
      HeapIdsLive(s, s.pc.c);
    } else if s.pc.Update? {
      assert HeapOk(s, s.pc.c);
      TopIsLive(s, s.pc.c);
    }
  }

  lemma TopIsLive(s: State, k: Kind)
    requires HeapOk(s, k)
    ensures s.Heap(k).Node? ==> s.Heap(k).data.id in s.objects
  {
    assert s.Heap(k).Node? ==> InHeap(s, k, s.Heap(k).data);
  }

  /** No step of any run touches a delegate that has been deleted (or not yet
      been made): not the heap's comparisons, not the messages, not the loop
      that expires timers, not a client's stop. */
  lemma NoUseAfterDelete(start: Timespec, ls: seq<Label>, l: Label)
    requires Enabled(Run(start, ls), l)
    ensures Touched(Run(start, ls), l) <= Run(start, ls).objects.Keys
  {
    var s := Run(start, ls);
    RunKeepsLife(start, ls);
    match l
    case Fetch =>
      assert MsgOk(s, s.queue[0]) && HeapOk(s, s.queue[0].c);
      MsgTouchesLive(s, s.queue[0]);
    case MsgStep =>
      PcTouchesLive(s);
    case _ =>
  }

  /** What still refers to the delegate `d` of object number `i`. */
  ghost predicate Referenced(s: State, i: nat) {
    || (exists c :: c in s.clients && s.clients[c].timer == Some(i))
    || (exists k, d :: InHeap(s, k, d) && d.id == i)
    || (exists m :: m in s.queue && !m.Expire? && m.d.id == i)
  }

  /** When the message thread deletes a delegate, the delegate is there to be
      deleted, and no client, heap or message refers to it any more; the step
      takes away that one object and its address is not used again. */
  lemma DeletionIsSafe(start: Timespec, ls: seq<Label>)
    requires Run(start, ls).pc.Deleting?
    ensures var s := Run(start, ls); var i := s.pc.d.id;
      && i in s.objects && !Referenced(s, i)
      && Step(s, MsgStep).objects == s.objects - {i}
      && i < s.nextId
  {
    RunKeepsLife(start, ls);
    VictimIsFree(Run(start, ls));
    DeletionTakesOne(Run(start, ls));
  }

  lemma DeletionTakesOne(s: State)
    requires s.pc.Deleting? && s.pc.d.id in s.objects
    ensures Step(s, MsgStep).objects == s.objects - {s.pc.d.id}
  {
    var i := s.pc.d.id;
    DropKeepsObjects(s.(objects := s.objects - {i}, pc := Idle), s.objects[i].owner);
  }

  lemma DropKeepsObjects(s: State, c: nat)
    ensures DropLock(s, c).objects == s.objects
  {
  }

  lemma VictimIsFree(s: State)
    requires LifeInv(s) && s.pc.Deleting?
    ensures s.pc.d.id in s.objects && !Referenced(s, s.pc.d.id) && s.pc.d.id < s.nextId
  {
    var d := s.pc.d;
    assert VictimOk(s, d) && ObjectOk(s, d.id);
    forall k, e | InHeap(s, k, e) ensures e.id != d.id {
      assert HeapOk(s, k) && LiveIn(s, k, e);
    }
    forall m | m in s.queue && !m.Expire? ensures m.d.id != d.id {
      assert MsgOk(s, m);
    }
  }

  /** Nothing leaks: a stopped delegate that still exists has its one Remove
      queued or is the one that the message thread is about to delete. */
  lemma StoppedIsDeletedSoon(start: Timespec, ls: seq<Label>, i: nat)
    requires i in Run(start, ls).objects && Run(start, ls).objects[i].client.None?
    ensures var s := Run(start, ls); var o := s.objects[i];
      Remove(o.home, o.d) in s.queue || Victim(s.pc) == Some(o.d)
  {
    RunKeepsLife(start, ls);
    assert Accounted(Run(start, ls), i);
  }

  /** Nothing gets lost: while a client waits for its timer, the timer is on
      its way into its container's heap, in that heap, or being expired. */
  lemma PendingIsNotLost(start: Timespec, ls: seq<Label>, c: nat)
    requires c in Run(start, ls).clients && Run(start, ls).clients[c].timer.Some?
    ensures var s := Run(start, ls); var i := s.clients[c].timer.value;
      && i in s.objects
      && var o := s.objects[i];
         Push(o.home, o.d) in s.queue || InHeap(s, o.home, o.d) || (s.pc.Popped? && s.pc.d == o.d)
  {
    RunKeepsLife(start, ls);
    var s := Run(start, ls);
    assert Accounted(s, s.clients[c].timer.value);
  }
}
