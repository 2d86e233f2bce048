/** The tree that a LocHeap is at one moment, and what its operations make of
    it.  The classes of LocHeap.dfy are proved against these functions; the
    priority-queue facts are proved here about the functions. */
module HeapTree {
  import opened Wrappers
  import opened Rankables

  datatype Tree = Leaf | Node(data: Delegate, size: int, left: Tree, right: Tree)

  function Peek(t: Tree): Option<Delegate> {
    if t.Leaf? then None else Some(t.data)
  }

  function Push(t: Tree, d: Delegate): Tree {
    if t.Leaf? then Node(d, 1, Leaf, Leaf)
    else
      var keep, drop := if OutRanks(d, t.data) then d else t.data,
                        if OutRanks(d, t.data) then t.data else d;
      if t.left.Leaf? || (t.right.Node? && t.left.size <= t.right.size)
      then Node(keep, t.size + 1, Push(t.left, drop), t.right)
      else Node(keep, t.size + 1, t.left, Push(t.right, drop))
  }

  /** Whether the left subtree supplies the replacement for a popped top. */
  predicate TakesLeft(t: Tree)
    requires t.Node?
  {
    t.left.Node? && (t.right.Leaf? || OutRanks(t.left.data, t.right.data))
  }

  function Pop(t: Tree): Tree
    requires t.Node?
  {
    if t.left.Leaf? && t.right.Leaf? then Leaf
    else if TakesLeft(t) then Node(t.left.data, t.size - 1, Pop(t.left), t.right)
    else Node(t.right.data, t.size - 1, t.left, Pop(t.right))
  }

  /** What is left after `remove`, or None when the search did not find `d`. */
  function Remove(t: Tree, d: Delegate): Option<Tree> {
    if t.Leaf? then None
    else if t.data == d then Some(Pop(t))
    else if OutRanks(d, t.data) then None
    else match Remove(t.left, d)
      case Some(l) => Some(Node(t.data, t.size - 1, l, t.right))
      case None =>
        match Remove(t.right, d)
        case Some(r) => Some(Node(t.data, t.size - 1, t.left, r))
        case None => None
  }

  function AfterRemove(t: Tree, d: Delegate): Tree {
    match Remove(t, d) case Some(t') => t' case None => t
  }

  // ----- what the trees mean -----

  ghost function Elements(t: Tree): multiset<Delegate> {
    if t.Leaf? then multiset{} else multiset{t.data} + Elements(t.left) + Elements(t.right)
  }

  function Count(t: Tree): nat {
    if t.Leaf? then 0 else 1 + Count(t.left) + Count(t.right)
  }

  /** No node is outranked by a child. */
  ghost predicate Ordered(t: Tree) {
    t.Node? ==>
      && Ordered(t.left) && Ordered(t.right)
      && (t.left.Node? ==> !OutRanks(t.left.data, t.data))
      && (t.right.Node? ==> !OutRanks(t.right.data, t.data))
  }

  /** Every node's size field is the number of nodes below and including it. */
  ghost predicate Sized(t: Tree) {
    t.Node? ==> t.size == Count(t) && Sized(t.left) && Sized(t.right)
  }

  ghost predicate IsHeap(t: Tree) {
    Ordered(t) && Sized(t)
  }

  lemma {:induction false} TopIsMaximal(t: Tree, d: Delegate)
    requires Ordered(t) && d in Elements(t)
    ensures !OutRanks(d, t.data)
  {
    if d in Elements(t.left) {
      TopIsMaximal(t.left, d);
    } else if d in Elements(t.right) {
      TopIsMaximal(t.right, d);
    }
  }

  lemma {:induction false} ElementsCount(t: Tree)
    ensures |Elements(t)| == Count(t)
  {
    if t.Node? {
      ElementsCount(t.left);
      ElementsCount(t.right);
    }
  }

  // ----- push -----

  predicate PushesLeft(t: Tree)
    requires t.Node?
  {
    t.left.Leaf? || (t.right.Node? && t.left.size <= t.right.size)
  }

  /** The top keeps the higher of the two, and the other goes to one side. */
  lemma PushShape(t: Tree, d: Delegate)
    requires t.Node?
    ensures var keep, drop := if OutRanks(d, t.data) then d else t.data, if OutRanks(d, t.data) then t.data else d;
      Push(t, d) == if PushesLeft(t) then Node(keep, t.size + 1, Push(t.left, drop), t.right)
                    else Node(keep, t.size + 1, t.left, Push(t.right, drop))
  {
  }

  lemma {:induction false} PushConserves(t: Tree, d: Delegate)
    ensures Elements(Push(t, d)) == Elements(t) + multiset{d}
    ensures Count(Push(t, d)) == Count(t) + 1
  {
    if t.Node? {
      var keep, drop := if OutRanks(d, t.data) then d else t.data, if OutRanks(d, t.data) then t.data else d;
      PushShape(t, d);
      Regroup(Elements(t.left), Elements(t.right), keep, drop);
      if PushesLeft(t) {
        PushConserves(t.left, drop);
      } else {
        PushConserves(t.right, drop);
      }
    }
  }

  lemma Regroup(l: multiset<Delegate>, r: multiset<Delegate>, x: Delegate, y: Delegate)
    ensures multiset{x} + (l + multiset{y}) + r == multiset{x} + l + r + multiset{y}
    ensures multiset{x} + l + (r + multiset{y}) == multiset{x} + l + r + multiset{y}
    ensures multiset{x} + l + r + multiset{y} == multiset{y} + l + r + multiset{x}
  {
  }

  /** The new top is the old one unless the newcomer outranks it. */
  lemma PushTop(t: Tree, d: Delegate)
    ensures Push(t, d).Node?
    ensures Push(t, d).data == if t.Leaf? || OutRanks(d, t.data) then d else t.data
  {
  }

  lemma {:induction false} PushKeepsHeap(t: Tree, d: Delegate)
    requires IsHeap(t)
    ensures IsHeap(Push(t, d))
  {
    if t.Node? {
      var drop := if OutRanks(d, t.data) then t.data else d;
      PushShape(t, d);
      PushConserves(t, d);
      if PushesLeft(t) {
        PushKeepsHeap(t.left, drop);
        PushTop(t.left, drop);
      } else {
        PushKeepsHeap(t.right, drop);
        PushTop(t.right, drop);
      }
    }
  }

  // ----- pop -----

  /** The next top: the left child's timer if its second is before the right one's,
      and the right child's if there is one otherwise. */
  lemma PopTop(t: Tree)
    requires t.Node?
    ensures Peek(Pop(t)) ==
      if t.left.Node? && (t.right.Node? ==> t.left.data.due.sec < t.right.data.due.sec) then Some(t.left.data)
      else Peek(t.right)
  {
  }

  lemma {:induction false} PopConserves(t: Tree)
    requires t.Node?
    ensures Elements(t) == Elements(Pop(t)) + multiset{t.data}
    ensures Count(t) == Count(Pop(t)) + 1
  {
    if t.left.Leaf? && t.right.Leaf? {
    } else if TakesLeft(t) {
      PopConserves(t.left);
    } else {
      PopConserves(t.right);
    }
  }

  lemma {:induction false} PopKeepsHeap(t: Tree)
    requires t.Node? && IsHeap(t)
    ensures IsHeap(Pop(t))
  {
    if t.left.Leaf? && t.right.Leaf? {
    } else if TakesLeft(t) {
      PopKeepsHeap(t.left);
      PopConserves(t);
      PopTopBelow(t.left);
    } else {
      PopKeepsHeap(t.right);
      PopConserves(t);
      PopTopBelow(t.right);
    }
  }

  lemma PopTopBelow(t: Tree)
    requires t.Node? && Ordered(t)
    ensures Pop(t).Node? ==> !OutRanks(Pop(t).data, t.data)
  {
  }

  // ----- remove -----

  /** The search that skips a subtree once the wanted data outranks its top is
      complete on an ordered tree: it fails only for data that is not there. */
  lemma {:induction false} RemoveFinds(t: Tree, d: Delegate)
    requires Ordered(t)
    ensures Remove(t, d).Some? <==> d in Elements(t)
  {
    if t.Node? && t.data != d {
      RemoveFinds(t.left, d);
      RemoveFinds(t.right, d);
      if d in Elements(t) {
        TopIsMaximal(t, d);
      }
    }
  }

  lemma {:induction false} RemoveConserves(t: Tree, d: Delegate)
    requires Remove(t, d).Some?
    ensures Elements(t) == Elements(Remove(t, d).value) + multiset{d}
    ensures Count(t) == Count(Remove(t, d).value) + 1
  {
    if t.data == d {
      PopConserves(t);
    } else if Remove(t.left, d).Some? {
      RemoveConserves(t.left, d);
    } else {
      RemoveConserves(t.right, d);
    }
  }

  lemma RemoveTopBelow(t: Tree, d: Delegate)
    requires Ordered(t) && Remove(t, d).Some?
    ensures var t' := Remove(t, d).value; t'.Node? ==> !OutRanks(t'.data, t.data)
  {
    if t.data == d {
      PopTopBelow(t);
    }
  }

  lemma {:induction false} RemoveKeepsHeap(t: Tree, d: Delegate)
    requires IsHeap(t) && Remove(t, d).Some?
    ensures IsHeap(Remove(t, d).value)
  {
    if t.data == d {
      PopKeepsHeap(t);
    } else {
      RemoveConserves(t, d);
      if Remove(t.left, d).Some? {
        RemoveKeepsHeap(t.left, d);
        RemoveTopBelow(t.left, d);
      } else {
        RemoveKeepsHeap(t.right, d);
        RemoveTopBelow(t.right, d);
      }
    }
  }

  /** Removing anything but the top leaves the top where it is. */
  lemma RemoveKeepsOtherTop(t: Tree, d: Delegate)
    requires t.Node? && t.data != d
    ensures AfterRemove(t, d).Node? && AfterRemove(t, d).data == t.data
  {
  }

  /** Removal as a whole: the heap stays a heap, loses exactly one `d` when it
      holds one, and does not change at all when it holds none. */
  lemma RemoveIsExact(t: Tree, d: Delegate)
    requires IsHeap(t)
    ensures IsHeap(AfterRemove(t, d))
    ensures Elements(AfterRemove(t, d)) == Elements(t) - multiset{d}
    ensures d !in Elements(t) ==> AfterRemove(t, d) == t
  {
    RemoveFinds(t, d);
    if d in Elements(t) {
      RemoveConserves(t, d);
      RemoveKeepsHeap(t, d);
    }
  }

  /** Completeness does rest on the order: on a tree that violates it the
      pruned search misses data that is there. */
  lemma RemoveMissesInUnorderedTree()
    returns (t: Tree, d: Delegate)
    ensures Sized(t) && !Ordered(t)
    ensures d in Elements(t) && Remove(t, d) == None
  {
    d := Delegate(1, Timespec(1, 0));
    t := Node(Delegate(0, Timespec(2, 0)), 2, Node(d, 1, Leaf, Leaf), Leaf);
    assert Elements(t) == multiset{t.data} + Elements(t.left) + Elements(t.right);
    assert Elements(t.left) == multiset{d};
  }

  // ----- whole runs -----

  datatype Op = DoPush(d: Delegate) | DoPop | DoRemove(d: Delegate)

  function Do(t: Tree, op: Op): Tree {
    match op
    case DoPush(d) => Push(t, d)
    case DoPop => if t.Leaf? then t else Pop(t)
    case DoRemove(d) => AfterRemove(t, d)
  }

  function Run(ops: seq<Op>): Tree {
    if ops == [] then Leaf else Do(Run(ops[..|ops| - 1]), ops[|ops| - 1])
  }

  /** One step of the bag a priority queue is, when `top` is what a pop takes. */
  ghost function BagDo(bag: multiset<Delegate>, op: Op, top: Option<Delegate>): multiset<Delegate> {
    match op
    case DoPush(d) => bag + multiset{d}
    case DoPop => if top.Some? then bag - multiset{top.value} else bag
    case DoRemove(d) => bag - multiset{d}
  }

  ghost predicate IsBest(bag: multiset<Delegate>, d: Delegate) {
    d in bag && forall e :: e in bag ==> !OutRanks(e, d)
  }

  lemma DoRefinesBag(t: Tree, op: Op)
    requires IsHeap(t)
    ensures IsHeap(Do(t, op))
    ensures Elements(Do(t, op)) == BagDo(Elements(t), op, Peek(t))
  {
    match op
    case DoPush(d) =>
      PushKeepsHeap(t, d);
      PushConserves(t, d);
    case DoPop =>
      if t.Node? {
        PopKeepsHeap(t);
        PopConserves(t);
      }
    case DoRemove(d) =>
      RemoveIsExact(t, d);
  }

  lemma PeekIsBest(t: Tree)
    requires Ordered(t)
    ensures Peek(t).None? <==> Elements(t) == multiset{}
    ensures Peek(t).Some? ==> IsBest(Elements(t), Peek(t).value)
  {
    if t.Node? {
      assert t.data in Elements(t);
      forall e | e in Elements(t) ensures !OutRanks(e, t.data) {
        TopIsMaximal(t, e);
      }
    }
  }

  /** Every run of pushes, pops and removals keeps a heap whose size fields are
      exact, takes the steps of a bag, and always shows a best element. */
  lemma {:induction false} RunRefinesPriorityQueue(ops: seq<Op>)
    ensures IsHeap(Run(ops))
    ensures Peek(Run(ops)).None? <==> Elements(Run(ops)) == multiset{}
    ensures Peek(Run(ops)).Some? ==> IsBest(Elements(Run(ops)), Peek(Run(ops)).value)
    ensures ops != [] ==>
      var before := Run(ops[..|ops| - 1]);
      Elements(Run(ops)) == BagDo(Elements(before), ops[|ops| - 1], Peek(before))
  {
    if ops != [] {
      RunRefinesPriorityQueue(ops[..|ops| - 1]);
      DoRefinesBag(Run(ops[..|ops| - 1]), ops[|ops| - 1]);
    }
    PeekIsBest(Run(ops));
  }
}
