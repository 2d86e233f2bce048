/** How far the "push into the smaller subtree" rule balances a LocHeap. */
module HeapBalance {
  import opened Rankables
  import opened HeapTree

  ghost function Excess(t: Tree): int
    requires t.Node?
  {
    Count(t.left) - Count(t.right)
  }

  /** At every node the left side holds as many nodes as the right, or one more. */
  ghost predicate Balanced(t: Tree) {
    t.Node? ==> 0 <= Excess(t) <= 1 && Balanced(t.left) && Balanced(t.right)
  }

  function Max(a: int, b: int): int {
    if a < b then b else a
  }

  function Abs(a: int): int {
    if a < 0 then -a else a
  }

  function Height(t: Tree): nat {
    if t.Leaf? then 0 else 1 + Max(Height(t.left), Height(t.right))
  }

  function Pow2(n: nat): nat {
    if n == 0 then 1 else 2 * Pow2(n - 1)
  }

  lemma {:induction false} PushKeepsBalanced(t: Tree, d: Delegate)
    requires Sized(t) && Balanced(t)
    ensures Balanced(Push(t, d))
  {
    if t.Node? {
      var drop := if OutRanks(d, t.data) then t.data else d;
      PushKeepsBalanced(t.left, drop);
      PushKeepsBalanced(t.right, drop);
      PushConserves(t.left, drop);
      PushConserves(t.right, drop);
    }
  }

  lemma {:induction false} Pow2Monotone(a: nat, b: nat)
    requires a <= b
    ensures 1 <= Pow2(a) <= Pow2(b)
  {
    if b > a {
      Pow2Monotone(a, b - 1);
    } else if a > 0 {
      Pow2Monotone(a - 1, a - 1);
    }
  }

  lemma {:induction false} BalancedHeight(t: Tree)
    requires Balanced(t)
    ensures Count(t) < Pow2(Height(t))
    ensures t.Node? ==> Pow2(Height(t) - 1) <= Count(t)
  {
    if t.Node? {
      var l, r := t.left, t.right;
      BalancedHeight(l);
      BalancedHeight(r);
      var h := Max(Height(l), Height(r));
      Pow2Monotone(Height(l), h);
      Pow2Monotone(Height(r), h);
      if Height(l) < Height(r) {
        Pow2Monotone(Height(l), Height(r) - 1);
        assert false;
      }
      assert Pow2(Height(t)) == 2 * Pow2(h);
      if l.Node? {
        assert Pow2(h) == 2 * Pow2(h - 1);
      }
    }
  }

  function PushAll(ds: seq<Delegate>): Tree {
    if ds == [] then Leaf else Push(PushAll(ds[..|ds| - 1]), ds[|ds| - 1])
  }

  /** A heap built by pushes alone is balanced at every node, so n timers give
      a tree of the least possible height. */
  lemma {:induction false} PushOnlyIsBalanced(ds: seq<Delegate>)
    ensures IsHeap(PushAll(ds)) && Balanced(PushAll(ds))
    ensures Count(PushAll(ds)) == |ds|
    ensures |ds| < Pow2(Height(PushAll(ds)))
    ensures ds != [] ==> Pow2(Height(PushAll(ds)) - 1) <= |ds|
  {
    if ds != [] {
      PushOnlyIsBalanced(ds[..|ds| - 1]);
      var t, d := PushAll(ds[..|ds| - 1]), ds[|ds| - 1];
      PushKeepsHeap(t, d);
      PushKeepsBalanced(t, d);
      PushConserves(t, d);
    }
    BalancedHeight(PushAll(ds));
  }

  /** `u` has every node of `t`, none of them further out of balance than one
      node or than it was in `t`. */
  ghost predicate NoWorse(t: Tree, u: Tree) {
    t.Node? ==>
      && u.Node?
      && Abs(Excess(u)) <= Max(1, Abs(Excess(t)))
      && NoWorse(t.left, u.left) && NoWorse(t.right, u.right)
  }

  lemma {:induction false} NoWorseReflexive(t: Tree)
    ensures NoWorse(t, t)
  {
    if t.Node? {
      NoWorseReflexive(t.left);
      NoWorseReflexive(t.right);
    }
  }

  lemma PushExcess(t: Tree, d: Delegate)
    requires t.Node? && Sized(t)
    ensures Abs(Excess(Push(t, d))) <= Max(1, Abs(Excess(t)))
  {
    var drop := if OutRanks(d, t.data) then t.data else d;
    PushConserves(t.left, drop);
    PushConserves(t.right, drop);
  }

  /** Pops and removals may unbalance the tree; no push makes it worse. */
  lemma {:induction false} PushNeverUnbalances(t: Tree, d: Delegate)
    requires Sized(t)
    ensures NoWorse(t, Push(t, d))
  {
    if t.Node? {
      var drop := if OutRanks(d, t.data) then t.data else d;
      var u := Push(t, d);
      PushExcess(t, d);
      assert NoWorse(t.left, u.left) by {
        PushNeverUnbalances(t.left, drop);
        NoWorseReflexive(t.left);
      }
      assert NoWorse(t.right, u.right) by {
        PushNeverUnbalances(t.right, drop);
        NoWorseReflexive(t.right);
      }
    }
  }
}
