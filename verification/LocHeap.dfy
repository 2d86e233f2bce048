/** The pointer-based heap: nodes that exchange their data and relink in place. */
module LocHeapClasses {
  import opened Wrappers
  import opened Rankables
  import opened HeapTree

  class LocHeapNode {
    var mSize: int
    var mLeft: LocHeapNode?
    var mRight: LocHeapNode?
    var mData: Delegate

    ghost var tree: Tree              // the subtree below and including this node
    ghost var Repr: set<LocHeapNode>  // the nodes of that subtree

    static ghost function ReprOf(n: LocHeapNode?): set<LocHeapNode>
      reads n
    {
      if n == null then {} else n.Repr
    }

    static ghost function TreeOf(n: LocHeapNode?): Tree
      reads n
    {
      if n == null then Leaf else n.tree
    }

    /** The subtree at `n`, which may be missing, is well formed. */
    static ghost predicate ValidOpt(n: LocHeapNode?)
      reads n, ReprOf(n)
      decreases ReprOf(n), 1
    {
      n != null ==> n.Valid()
    }

    /** The two subtrees are well formed and share nothing. */
    ghost predicate ChildrenOk()
      reads this, ReprOf(mLeft), ReprOf(mRight), mLeft, mRight
    {
      && this !in ReprOf(mLeft) && this !in ReprOf(mRight) && ReprOf(mLeft) !! ReprOf(mRight)
      && ValidOpt(mLeft) && ValidOpt(mRight)
    }

    ghost predicate Valid()
      reads this, Repr
      decreases Repr, 0
      ensures Valid() ==> this in Repr && tree.Node? && tree.data == mData && tree.size == mSize
    {
      && this in Repr
      && (mLeft != null ==> mLeft in Repr)
      && (mRight != null ==> mRight in Repr)
      && this !in ReprOf(mLeft) && this !in ReprOf(mRight)
      && ReprOf(mLeft) !! ReprOf(mRight)
      && Repr == {this} + ReprOf(mLeft) + ReprOf(mRight)
      && ValidOpt(mLeft) && ValidOpt(mRight)
      && tree == Node(mData, mSize, TreeOf(mLeft), TreeOf(mRight))
    }

    ghost predicate Single()
      reads this
    {
      mSize == 1 && mLeft == null && mRight == null
    }

    constructor (data: Delegate)
      ensures Valid() && Single() && fresh(Repr) && Repr == {this}
      ensures tree == Node(data, 1, Leaf, Leaf)
    {
      mSize, mLeft, mRight, mData := 1, null, null, data;
      tree, Repr := Node(data, 1, Leaf, Leaf), {this};
    }

    function OutRanksNode(node: LocHeapNode): bool
      reads this, node
    {
      OutRanks(mData, node.mData)
    }

    /** Exchanges the data of this node, which may be above `node`, with it. */
    method Swap(node: LocHeapNode)
      requires node.Valid() && this !in node.Repr
      modifies this`mData, node`mData, node`tree
      ensures mData == old(node.mData)
      ensures node.Valid() && node.tree == old(node.tree).(data := old(mData))
    {
      assert node.Valid();
      mData, node.mData := node.mData, mData;
      node.tree := node.tree.(data := node.mData);
    }

    /** Recomputes the ghost view of this node from its two subtrees. */
    ghost method Reassemble()
      requires ChildrenOk()
      modifies this`tree, this`Repr
      ensures Valid() && Repr == {this} + ReprOf(mLeft) + ReprOf(mRight)
      ensures tree == Node(mData, mSize, TreeOf(mLeft), TreeOf(mRight))
    {
      tree := Node(mData, mSize, TreeOf(mLeft), TreeOf(mRight));
      Repr := {this} + ReprOf(mLeft) + ReprOf(mRight);
    }

    method Push(node: LocHeapNode)
      requires Valid() && node.Valid() && node.Single() && node !in Repr
      modifies Repr, node
      ensures Valid() && Repr == old(Repr) + {node}
      ensures tree == HeapTree.Push(old(tree), old(node.mData))
      decreases Repr, 0
    {
      if node.OutRanksNode(this) {
        Swap(node);
      }
      if mLeft == null || (mRight != null && mLeft.mSize <= mRight.mSize) {
        PushLeft(node);
      } else {
        PushRight(node);
      }
    }

    method PushLeft(node: LocHeapNode)
      requires ChildrenOk() && node.Valid() && node.Single()
      requires node != this && node !in ReprOf(mLeft) && node !in ReprOf(mRight)
      modifies this, ReprOf(mLeft), node
      ensures Valid() && mData == old(mData)
      ensures Repr == {this, node} + old(ReprOf(mLeft)) + old(ReprOf(mRight))
      ensures tree == Node(mData, old(mSize) + 1,
                           HeapTree.Push(old(TreeOf(mLeft)), old(node.mData)), old(TreeOf(mRight)))
      decreases ReprOf(mLeft), 2
    {
      var l := PushBelow(mLeft, node);
      mLeft, mSize := l, mSize + 1;
      Reassemble();
    }

    method PushRight(node: LocHeapNode)
      requires ChildrenOk() && node.Valid() && node.Single()
      requires node != this && node !in ReprOf(mLeft) && node !in ReprOf(mRight)
      modifies this, ReprOf(mRight), node
      ensures Valid() && mData == old(mData)
      ensures Repr == {this, node} + old(ReprOf(mLeft)) + old(ReprOf(mRight))
      ensures tree == Node(mData, old(mSize) + 1,
                           old(TreeOf(mLeft)), HeapTree.Push(old(TreeOf(mRight)), old(node.mData)))
      decreases ReprOf(mRight), 2
    {
      var r := PushBelow(mRight, node);
      mRight, mSize := r, mSize + 1;
      Reassemble();
    }

    /** Puts `node` into the subtree at `child`, becoming it if there is none. */
    static method PushBelow(child: LocHeapNode?, node: LocHeapNode) returns (sub: LocHeapNode)
      requires ValidOpt(child) && node.Valid() && node.Single() && node !in ReprOf(child)
      modifies ReprOf(child), node
      ensures sub == if child == null then node else child
      ensures sub.Valid() && sub.Repr == old(ReprOf(child)) + {node}
      ensures sub.tree == HeapTree.Push(old(TreeOf(child)), old(node.mData))
      decreases ReprOf(child), 1
    {
      sub := node;
      if child != null {
        child.Push(node);
        sub := child;
      }
    }

    /** Pops the top of the tree that starts at `top`.  `rest` is what the
        reference to the top holds afterwards. */
    static method Pop(top: LocHeapNode) returns (popped: LocHeapNode, rest: LocHeapNode?)
      requires top.Valid()
      modifies top.Repr
      ensures popped in old(top.Repr) && popped.mData == old(top.mData)
      ensures popped.mLeft == null && popped.mRight == null
      ensures rest == null || rest == top
      ensures ValidOpt(rest) && ReprOf(rest) == old(top.Repr) - {popped}
      ensures TreeOf(rest) == HeapTree.Pop(old(top.tree))
      decreases top.Repr, 0
    {
      popped, rest := top, top;
      top.mSize := top.mSize - 1;
      if top.mLeft != null || top.mRight != null {
        if top.mLeft != null && (top.mRight == null || top.mLeft.OutRanksNode(top.mRight)) {
          popped := top.PopLeft();
        } else {
          popped := top.PopRight();
        }
      } else {
        rest := null;
      }
    }

    /** Moves the left child's data up and pops in the left subtree. */
    method PopLeft() returns (popped: LocHeapNode)
      requires ChildrenOk() && mLeft != null
      modifies this, ReprOf(mLeft)
      ensures popped in old(ReprOf(mLeft)) && popped.mData == old(mData)
      ensures popped.mLeft == null && popped.mRight == null
      ensures Valid() && Repr == {this} + old(ReprOf(mLeft)) + old(ReprOf(mRight)) - {popped}
      ensures tree == Node(old(mLeft.mData), mSize, HeapTree.Pop(old(mLeft.tree)), old(TreeOf(mRight)))
      ensures mSize == old(mSize)
      decreases ReprOf(mLeft), 1
    {
      PopSwapped(mLeft.tree, mData);
      Swap(mLeft);
      var l;
      popped, l := Pop(mLeft);
      mLeft := l;
      Reassemble();
    }

    /** Moves the right child's data up and pops in the right subtree. */
    method PopRight() returns (popped: LocHeapNode)
      requires ChildrenOk() && mRight != null
      modifies this, ReprOf(mRight)
      ensures popped in old(ReprOf(mRight)) && popped.mData == old(mData)
      ensures popped.mLeft == null && popped.mRight == null
      ensures Valid() && Repr == {this} + old(ReprOf(mLeft)) + old(ReprOf(mRight)) - {popped}
      ensures tree == Node(old(mRight.mData), mSize, old(TreeOf(mLeft)), HeapTree.Pop(old(mRight.tree)))
      ensures mSize == old(mSize)
      decreases ReprOf(mRight), 1
    {
      PopSwapped(mRight.tree, mData);
      Swap(mRight);
      var r;
      popped, r := Pop(mRight);
      mRight := r;
      Reassemble();
    }

    /** Popping does not look at the data on top. */
    static lemma PopSwapped(t: Tree, d: Delegate)
      requires t.Node?
      ensures HeapTree.Pop(t.(data := d)) == HeapTree.Pop(t)
    {
    }

    /** Takes out the node that carries `data`, if the search reaches it. */
    static method Remove(top: LocHeapNode, data: Delegate)
      returns (removed: LocHeapNode?, rest: LocHeapNode?)
      requires top.Valid()
      modifies top.Repr
      ensures removed == null <==> HeapTree.Remove(old(top.tree), data).None?
      ensures removed != null ==>
        && removed in old(top.Repr) && removed.mData == data
        && removed.mLeft == null && removed.mRight == null
      ensures rest == null || rest == top
      ensures ValidOpt(rest) && TreeOf(rest) == AfterRemove(old(top.tree), data)
      ensures ReprOf(rest) == old(top.Repr) - {removed}
      decreases top.Repr, 1
    {
      removed, rest := null, top;
      if data == top.mData {
        removed, rest := Pop(top);
      } else if !OutRanks(data, top.mData) {
        if top.mLeft != null {
          removed := top.RemoveLeft(data);
        }
        if removed == null && top.mRight != null {
          removed := top.RemoveRight(data);
        }
      }
    }

    method RemoveLeft(data: Delegate) returns (removed: LocHeapNode?)
      requires Valid() && mLeft != null
      modifies Repr
      ensures Valid() && Repr == old(Repr) - {removed}
      ensures removed == null <==> HeapTree.Remove(old(tree).left, data).None?
      ensures removed != null ==>
        && removed in old(Repr) && removed != this && removed.mData == data
        && removed.mLeft == null && removed.mRight == null
      ensures tree == if removed == null then old(tree)
                      else Node(old(mData), old(mSize) - 1,
                                HeapTree.Remove(old(tree).left, data).value, old(tree).right)
      ensures mRight == old(mRight) && mData == old(mData)
      decreases Repr, 0
    {
      var l;
      removed, l := Remove(mLeft, data);
      mLeft := l;
      if removed != null {
        mSize := mSize - 1;
      }
      Reassemble();
    }

    method RemoveRight(data: Delegate) returns (removed: LocHeapNode?)
      requires Valid() && mRight != null
      modifies Repr
      ensures Valid() && Repr == old(Repr) - {removed}
      ensures removed == null <==> HeapTree.Remove(old(tree).right, data).None?
      ensures removed != null ==>
        && removed in old(Repr) && removed != this && removed.mData == data
        && removed.mLeft == null && removed.mRight == null
      ensures tree == if removed == null then old(tree)
                      else Node(old(mData), old(mSize) - 1,
                                old(tree).left, HeapTree.Remove(old(tree).right, data).value)
      decreases Repr, 0
    {
      var r;
      removed, r := Remove(mRight, data);
      mRight := r;
      if removed != null {
        mSize := mSize - 1;
      }
      Reassemble();
    }

    /** The consistency check: it accepts exactly the heaps. */
    method CheckNodes() returns (ok: bool)
      requires Valid()
      ensures ok <==> IsHeap(tree)
      decreases Repr
    {
      var totalSize := mSize;
      if mLeft != null {
        var bad := mLeft.OutRanksNode(this);
        if !bad {
          var good := mLeft.CheckNodes();
          bad := !good;
        }
        if bad {
          return false;
        }
        totalSize := totalSize - mLeft.mSize;
      }
      if mRight != null {
        var bad := mRight.OutRanksNode(this);
        if !bad {
          var good := mRight.CheckNodes();
          bad := !good;
        }
        if bad {
          return false;
        }
        totalSize := totalSize - mRight.mSize;
      }
      assert Sized(tree.left) && Sized(tree.right);
      assert totalSize == mSize - Count(tree.left) - Count(tree.right);
      assert Ordered(tree) by {
        assert mLeft != null ==> !OutRanks(tree.left.data, tree.data);
        assert mRight != null ==> !OutRanks(tree.right.data, tree.data);
        assert Ordered(tree.left) && Ordered(tree.right);
      }
      assert Count(tree) == 1 + Count(tree.left) + Count(tree.right);
      return totalSize == 1;
    }
  }

  class LocHeap {
    var mTree: LocHeapNode?

    ghost predicate Valid()
      reads this, mTree, if mTree == null then {} else mTree.Repr
    {
      mTree != null ==> mTree.Valid()
    }

    ghost function Repr(): set<object>
      reads this, mTree
    {
      {this} + if mTree == null then {} else mTree.Repr
    }

    ghost function Contents(): Tree
      reads this, mTree
    {
      if mTree == null then Leaf else mTree.tree
    }

    constructor ()
      ensures Valid() && Contents() == Leaf && fresh(Repr())
    {
      mTree := null;
    }

    method Push(d: Delegate)
      requires Valid()
      modifies Repr()
      ensures Valid() && fresh(Repr() - old(Repr()))
      ensures Contents() == HeapTree.Push(old(Contents()), d)
    {
      var heapNode := new LocHeapNode(d);
      if mTree == null {
        mTree := heapNode;
      } else {
        mTree.Push(heapNode);
      }
    }

    method Peek() returns (top: Option<Delegate>)
      requires Valid()
      ensures top == HeapTree.Peek(Contents())
    {
      top := if mTree == null then None else Some(mTree.mData);
    }

    method Pop() returns (d: Option<Delegate>)
      requires Valid()
      modifies Repr()
      ensures Valid() && Repr() <= old(Repr())
      ensures d == HeapTree.Peek(old(Contents()))
      ensures Contents() == if d.None? then Leaf else HeapTree.Pop(old(Contents()))
    {
      d := None;
      if mTree != null {
        var popped, rest := LocHeapNode.Pop(mTree);
        mTree := rest;
        d := Some(popped.mData);
      }
    }

    method Remove(data: Delegate) returns (d: Option<Delegate>)
      requires Valid()
      modifies Repr()
      ensures Valid() && Repr() <= old(Repr())
      ensures d == if HeapTree.Remove(old(Contents()), data).Some? then Some(data) else None
      ensures Contents() == AfterRemove(old(Contents()), data)
    {
      d := None;
      if mTree != null {
        var removed, rest := LocHeapNode.Remove(mTree, data);
        mTree := rest;
        if removed != null {
          d := Some(removed.mData);
        }
      }
    }
  }
}
