/** What one Expire message takes out of a container's heap. */
module ExpireLoop {
  import opened Rankables
  import opened TimerSystem
  import H = HeapTree

  /** The pops that follow the first one: the loop of `popIfOutRanks`. */
  function Drained(t: H.Tree, now: Timespec): seq<Delegate>
    decreases H.Count(t)
  {
    if !TakesTop(t, now) then []
    else
      H.PopConserves(t);
      [t.data] + Drained(H.Pop(t), now)
  }

  /** What that loop leaves. */
  function Kept(t: H.Tree, now: Timespec): H.Tree
    decreases H.Count(t)
  {
    if !TakesTop(t, now) then t
    else
      H.PopConserves(t);
      Kept(H.Pop(t), now)
  }

  lemma DrainStep(t: H.Tree, now: Timespec)
    ensures TakesTop(t, now) ==>
      && Drained(t, now) == [t.data] + Drained(H.Pop(t), now)
      && Kept(t, now) == Kept(H.Pop(t), now)
      && H.Count(t) == H.Count(H.Pop(t)) + 1
    ensures !TakesTop(t, now) ==> Drained(t, now) == [] && Kept(t, now) == t
  {
    if TakesTop(t, now) {
      H.PopConserves(t);
    }
  }

  /** All the pops of the message: the first one is unconditional. */
  function ExpiredBy(t: H.Tree, now: Timespec): seq<Delegate> {
    if t.Leaf? then [] else [t.data] + Drained(H.Pop(t), now)
  }

  function KeptBy(t: H.Tree, now: Timespec): H.Tree {
    if t.Leaf? then t else Kept(H.Pop(t), now)
  }

  predicate IsDue(d: Delegate, now: Timespec) {
    d.due.sec <= now.sec
  }

  ghost predicate InOrder(ds: seq<Delegate>) {
    forall i, j :: 0 <= i < j < |ds| ==> ds[i].due.sec <= ds[j].due.sec
  }

  lemma {:induction false} DrainConserves(t: H.Tree, now: Timespec)
    requires H.IsHeap(t)
    ensures H.IsHeap(Kept(t, now))
    ensures multiset(Drained(t, now)) + H.Elements(Kept(t, now)) == H.Elements(t)
    decreases H.Count(t)
  {
    if TakesTop(t, now) {
      H.PopConserves(t);
      H.PopKeepsHeap(t);
      DrainConserves(H.Pop(t), now);
      assert multiset(Drained(t, now)) == multiset{t.data} + multiset(Drained(H.Pop(t), now));
    }
  }

  lemma {:induction false} DrainTakesTheDue(t: H.Tree, now: Timespec)
    requires H.IsHeap(t)
    ensures forall d :: d in Drained(t, now) ==> IsDue(d, now)
    ensures forall d :: d in H.Elements(Kept(t, now)) ==> !IsDue(d, now)
    decreases H.Count(t)
  {
    if TakesTop(t, now) {
      H.PopConserves(t);
      H.PopKeepsHeap(t);
      DrainTakesTheDue(H.Pop(t), now);
    } else {
      forall d | d in H.Elements(t) ensures !IsDue(d, now) {
        H.TopIsMaximal(t, d);
      }
    }
  }

  lemma {:induction false} DrainIsInOrder(t: H.Tree, now: Timespec)
    requires H.IsHeap(t)
    ensures InOrder(Drained(t, now))
    decreases H.Count(t)
  {
    if TakesTop(t, now) {
      H.PopConserves(t);
      H.PopKeepsHeap(t);
      DrainIsInOrder(H.Pop(t), now);
      TopComesFirst(t, now);
    }
  }

  lemma TopComesFirst(t: H.Tree, now: Timespec)
    requires H.IsHeap(t) && t.Node?
    ensures forall d :: d in Drained(H.Pop(t), now) ==> t.data.due.sec <= d.due.sec
  {
    var tail := Drained(H.Pop(t), now);
    H.PopConserves(t);
    H.PopKeepsHeap(t);
    DrainConserves(H.Pop(t), now);
    forall d | d in tail ensures t.data.due.sec <= d.due.sec {
      assert d in multiset(tail);
      H.TopIsMaximal(t, d);
    }
  }

  lemma ExpireConserves(t: H.Tree, now: Timespec)
    requires H.IsHeap(t)
    ensures H.IsHeap(KeptBy(t, now))
    ensures multiset(ExpiredBy(t, now)) + H.Elements(KeptBy(t, now)) == H.Elements(t)
  {
    if t.Node? {
      H.PopConserves(t);
      H.PopKeepsHeap(t);
      DrainConserves(H.Pop(t), now);
      assert multiset(ExpiredBy(t, now)) == multiset{t.data} + multiset(Drained(H.Pop(t), now));
    }
  }

  /** The timers that expire come out in the order of their seconds, and no due
      timer stays behind. */
  lemma ExpireIsOrdered(t: H.Tree, now: Timespec)
    requires H.IsHeap(t)
    ensures InOrder(ExpiredBy(t, now))
    ensures forall d :: d in H.Elements(KeptBy(t, now)) ==> !IsDue(d, now)
  {
    if t.Node? {
      H.PopKeepsHeap(t);
      DrainTakesTheDue(H.Pop(t), now);
      DrainIsInOrder(H.Pop(t), now);
      TopComesFirst(t, now);
    }
  }

  /** A message expires a timer whose second has not come exactly when the top is
      such a timer, and then that top alone; otherwise it expires exactly the
      timers that are due. */
  lemma ExpiresTheDueIffTopIsDue(t: H.Tree, now: Timespec)
    requires H.IsHeap(t) && t.Node?
    ensures IsDue(t.data, now) <==>
      forall d :: d in ExpiredBy(t, now) <==> d in H.Elements(t) && IsDue(d, now)
    ensures !IsDue(t.data, now) ==>
      ExpiredBy(t, now) == [t.data] && forall d :: d in H.Elements(t) ==> !IsDue(d, now)
  {
    var popped, tail := ExpiredBy(t, now), Drained(H.Pop(t), now);
    ExpireConserves(t, now);
    ExpireIsOrdered(t, now);
    H.PopKeepsHeap(t);
    DrainTakesTheDue(H.Pop(t), now);
    assert popped == [t.data] + tail && popped[0] == t.data;
    if IsDue(t.data, now) {
      forall d ensures d in popped <==> d in H.Elements(t) && IsDue(d, now) {
        assert d in popped <==> d in multiset(popped);
      }
    } else {
      forall d | d in H.Elements(t) ensures !IsDue(d, now) {
        H.TopIsMaximal(t, d);
      }
      H.PopConserves(t);
      assert H.Pop(t).Node? ==> H.Pop(t).data in H.Elements(t);
    }
  }

  predicate IsEarly(d: Delegate, now: Timespec) {
    now.Nanos() < d.due.Nanos()
  }

  /** Ranks compare seconds alone, so an expiry can come early: not by a second,
      once the top is due, and not at all exactly when the top's time has come
      and no timer of the current second is still ahead. */
  lemma EarlyExpiryExactly(t: H.Tree, now: Timespec)
    requires H.IsHeap(t) && t.Node? && now.Normalised()
    requires forall d :: d in H.Elements(t) ==> d.due.Normalised()
    ensures IsDue(t.data, now) ==>
      forall d :: d in ExpiredBy(t, now) ==> d.due.Nanos() < now.Nanos() + 1_000_000_000
    ensures (forall d :: d in ExpiredBy(t, now) ==> !IsEarly(d, now)) <==>
      && !IsEarly(t.data, now)
      && forall d :: d in H.Elements(t) && d.due.sec == now.sec ==> d.due.nsec <= now.nsec
  {
    ExpiresTheDueIffTopIsDue(t, now);
    assert ExpiredBy(t, now)[0] == t.data && t.data in H.Elements(t);
    forall d | d in H.Elements(t) ensures IsEarly(d, now) <==>
      d.due.sec > now.sec || (d.due.sec == now.sec && d.due.nsec > now.nsec)
    {
    }
  }
}
