/** The heap as the runtime keeps it: nodes updated in place through their links.

  `LocHeapNode` owns the nodes below it (`Repr`), and its ghost `Shape` is the `Tree` it denotes.
  Every method is proved to turn that tree into exactly what the function of the same name in
  `LocHeapTree` says, so each theorem there is a theorem about these objects.
  */
module LocHeaps {
  import opened Options
  import T = LocHeapTree

  type Rankable = T.Rankable

  lemma Regroup<A>(a: set<A>, l: set<A>, r: set<A>, n: set<A>)
    ensures a + (l + n) + r == a + l + r + n
    ensures a + l + (r + n) == a + l + r + n
  {
  }

  lemma Ungroup<A>(a: set<A>, l: set<A>, r: set<A>, x: A)
    requires x !in a
    ensures x !in r ==> a + (l - {x}) + r == a + l + r - {x}
    ensures x !in l ==> a + l + (r - {x}) == a + l + r - {x}
  {
  }

  class LocHeapNode {
    var mSize: int
    var mLeft: LocHeapNode?
    var mRight: LocHeapNode?
    var mData: Rankable

    ghost var Shape: T.Tree
    ghost var Repr: set<LocHeapNode>

    ghost predicate Valid()
      reads this, Repr
      ensures Valid() ==> this in Repr
      decreases Repr
    {
      && this in Repr
      && (mLeft != null ==>
            mLeft in Repr && mLeft.Repr <= Repr && this !in mLeft.Repr && mLeft.Valid())
      && (mRight != null ==>
            mRight in Repr && mRight.Repr <= Repr && this !in mRight.Repr && mRight.Valid())
      && ReprOf(mLeft) !! ReprOf(mRight)
      && Repr == {this} + ReprOf(mLeft) + ReprOf(mRight)
      && Shape == T.Node(mSize, mData, ShapeOf(mLeft), ShapeOf(mRight))
    }

    static ghost function ShapeOf(node: LocHeapNode?): T.Tree
      reads node
    {
      if node == null then T.Nil else node.Shape
    }

    static ghost function ReprOf(node: LocHeapNode?): set<LocHeapNode>
      reads node
    {
      if node == null then {} else node.Repr
    }

    static ghost predicate ValidOrNull(node: LocHeapNode?)
      reads node, ReprOf(node)
    {
      node != null ==> node.Valid()
    }

    constructor (data: Rankable)
      ensures Valid() && fresh(Repr) && Repr == {this}
      ensures Shape == T.Single(data)
    {
      mSize, mLeft, mRight, mData := 1, null, null, data;
      Shape := T.Single(data);
      Repr := {this};
    }

    /** The links own two disjoint trees, neither of which reaches back to this node. */
    ghost predicate Links()
      reads this, mLeft, mRight, ReprOf(mLeft), ReprOf(mRight)
    {
      && ValidOrNull(mLeft) && ValidOrNull(mRight)
      && this !in ReprOf(mLeft) && this !in ReprOf(mRight)
      && ReprOf(mLeft) !! ReprOf(mRight)
    }

    /** Counts a node in or out and brings the ghost view up to date with the links. */
    method Resize(delta: int)
      requires Links()
      modifies this`mSize, this`Shape, this`Repr
      ensures Valid()
      ensures Repr == {this} + old(ReprOf(mLeft)) + old(ReprOf(mRight))
      ensures Shape == T.Node(old(mSize) + delta, mData, old(ShapeOf(mLeft)), old(ShapeOf(mRight)))
    {
      mSize := mSize + delta;
      Repr := {this} + ReprOf(mLeft) + ReprOf(mRight);
      Shape := T.Node(mSize, mData, ShapeOf(mLeft), ShapeOf(mRight));
    }

    lemma LinksMakeValid()
      requires Links() && Repr == {this} + ReprOf(mLeft) + ReprOf(mRight)
      requires Shape == T.Node(mSize, mData, ShapeOf(mLeft), ShapeOf(mRight))
      ensures Valid()
    {
    }

    /** A node that belongs to no tree and has nothing below it. */
    ghost predicate Detached()
      reads this
    {
      mLeft == null && mRight == null && Repr == {this} && Shape == T.Single(mData) && mSize == 1
    }

    // ---------- push ----------

    /** Drops a detached node into the tree; only data moves between nodes already linked. */
    method Push(node: LocHeapNode)
      requires Valid() && node.Detached() && node !in Repr
      modifies Repr, node
      ensures Valid() && Repr == old(Repr) + {node}
      ensures Shape == T.Push(old(Shape), old(node.mData))
      decreases T.Count(Shape), 1
    {
      PushInside(node);
      Resize(1);
    }

    /** The links after that push, the node itself not yet brought up to date. */
    method PushInside(node: LocHeapNode)
      requires Valid() && node.Detached() && node !in Repr
      modifies this`mData, this`mLeft, this`mRight, ReprOf(mLeft), ReprOf(mRight), node
      ensures Links()
      ensures {this} + ReprOf(mLeft) + ReprOf(mRight) == old(Repr) + {node}
      ensures T.Node(mSize + 1, mData, ShapeOf(mLeft), ShapeOf(mRight)) == T.Push(old(Shape), old(node.mData))
      decreases T.Count(Shape), 0
    {
      ghost var l, r := ReprOf(mLeft), ReprOf(mRight);
      assert Shape == T.Node(mSize, mData, ShapeOf(mLeft), ShapeOf(mRight));
      Settle(node);
      assert ReprOf(mLeft) == l && ReprOf(mRight) == r;
      if mLeft == null || (mRight != null && mLeft.mSize <= mRight.mSize) {
        PushLeft(node);
        assert ReprOf(mLeft) == l + {node} && ReprOf(mRight) == r;
      } else {
        PushRight(node);
        assert ReprOf(mRight) == r + {node} && ReprOf(mLeft) == l;
      }
      Regroup({this}, l, r, {node});
    }

    /** Keeps the higher-ranked of the two data here and leaves the other in `node`. */
    method Settle(node: LocHeapNode)
      requires Valid() && node.Detached() && node !in Repr
      modifies this`mData, node`mData, node`Shape
      ensures node.Detached() && Links()
      ensures mData == T.Stays(old(Shape), old(node.mData))
      ensures node.mData == T.Sinks(old(Shape), old(node.mData))
      ensures ShapeOf(mLeft) == old(ShapeOf(mLeft)) && ShapeOf(mRight) == old(ShapeOf(mRight))
    {
      if T.OutRanks(node.mData, mData) {
        node.mData, mData := mData, node.mData;
        node.Shape := T.Single(node.mData);
      }
    }

    method PushLeft(node: LocHeapNode)
      requires Links() && node.Detached() && node != this
      requires node !in ReprOf(mLeft) && node !in ReprOf(mRight)
      modifies this`mLeft, ReprOf(mLeft), node
      ensures Links() && ReprOf(mLeft) == old(ReprOf(mLeft)) + {node}
      ensures ShapeOf(mLeft) == T.Push(old(ShapeOf(mLeft)), old(node.mData))
      ensures ReprOf(mRight) == old(ReprOf(mRight)) && ShapeOf(mRight) == old(ShapeOf(mRight))
      decreases T.Count(ShapeOf(mLeft)), 2
    {
      if mLeft == null {
        mLeft := node;
      } else {
        mLeft.Push(node);
      }
    }

    method PushRight(node: LocHeapNode)
      requires Links() && node.Detached() && node != this
      requires node !in ReprOf(mLeft) && node !in ReprOf(mRight)
      modifies this`mRight, ReprOf(mRight), node
      ensures Links() && ReprOf(mRight) == old(ReprOf(mRight)) + {node}
      ensures ShapeOf(mRight) == T.Push(old(ShapeOf(mRight)), old(node.mData))
      ensures ReprOf(mLeft) == old(ReprOf(mLeft)) && ShapeOf(mLeft) == old(ShapeOf(mLeft))
      decreases T.Count(ShapeOf(mRight)), 2
    {
      if mRight == null {
        mRight := node;
      } else {
        mRight.Push(node);
      }
    }

    // ---------- pop ----------

    /** Sends the top's data down to a leaf and detaches that leaf, the only node to leave the tree.
        `newTop` is what the caller's link to `top` becomes; `popped` has nothing below it, so
        deleting it deletes nothing else. */
    static method Pop(top: LocHeapNode) returns (newTop: LocHeapNode?, popped: LocHeapNode)
      requires top.Valid()
      modifies top.Repr
      ensures popped in old(top.Repr) && popped.mData == old(top.mData)
      ensures popped.mLeft == null && popped.mRight == null
      ensures newTop == if T.Pop(old(top.Shape)).Nil? then null else top
      ensures ValidOrNull(newTop) && ShapeOf(newTop) == T.Pop(old(top.Shape))
      ensures ReprOf(newTop) == old(top.Repr) - {popped}
      decreases T.Count(top.Shape), 1
    {
      if top.mLeft != null || top.mRight != null {
        popped := top.PopBelow();
        top.Resize(-1);
        newTop := top;
      } else {
        newTop, popped := null, top;
      }
    }

    /** Pops into the subtree whose top ranks higher. */
    method PopBelow() returns (popped: LocHeapNode)
      requires Valid() && (mLeft != null || mRight != null)
      modifies this`mData, this`mLeft, this`mRight, ReprOf(mLeft), ReprOf(mRight)
      ensures Links() && popped in old(Repr) && popped.mData == old(mData)
      ensures popped.mLeft == null && popped.mRight == null
      ensures {this} + ReprOf(mLeft) + ReprOf(mRight) == old(Repr) - {popped}
      ensures T.Node(mSize - 1, mData, ShapeOf(mLeft), ShapeOf(mRight)) == T.Pop(old(Shape))
      decreases T.Count(Shape), 0
    {
      ghost var l, r := ReprOf(mLeft), ReprOf(mRight);
      assert Shape == T.Node(mSize, mData, ShapeOf(mLeft), ShapeOf(mRight));
      if mLeft != null && (mRight == null || T.OutRanks(mLeft.mData, mRight.mData)) {
        popped := PopLeft();
        assert ReprOf(mLeft) == l - {popped} && ReprOf(mRight) == r;
      } else {
        popped := PopRight();
        assert ReprOf(mRight) == r - {popped} && ReprOf(mLeft) == l;
      }
      Ungroup({this}, l, r, popped);
    }

    /** Exchanges data with the left child, then pops that child's tree. */
    method PopLeft() returns (popped: LocHeapNode)
      requires Links() && mLeft != null
      modifies this`mData, this`mLeft, ReprOf(mLeft)
      ensures Links() && mData == old(mLeft.mData) && popped.mData == old(mData)
      ensures popped in old(ReprOf(mLeft)) && popped.mLeft == null && popped.mRight == null
      ensures ReprOf(mLeft) == old(ReprOf(mLeft)) - {popped}
      ensures ShapeOf(mLeft) == T.Pop(old(mLeft.Shape))
      ensures ReprOf(mRight) == old(ReprOf(mRight)) && ShapeOf(mRight) == old(ShapeOf(mRight))
      decreases T.Count(ShapeOf(mLeft)), 2
    {
      T.PopIgnoresTop(mLeft.Shape, mData);
      SwapDown(mLeft);
      var rest;
      rest, popped := Pop(mLeft);
      mLeft := rest;
    }

    method PopRight() returns (popped: LocHeapNode)
      requires Links() && mRight != null
      modifies this`mData, this`mRight, ReprOf(mRight)
      ensures Links() && mData == old(mRight.mData) && popped.mData == old(mData)
      ensures popped in old(ReprOf(mRight)) && popped.mLeft == null && popped.mRight == null
      ensures ReprOf(mRight) == old(ReprOf(mRight)) - {popped}
      ensures ShapeOf(mRight) == T.Pop(old(mRight.Shape))
      ensures ReprOf(mLeft) == old(ReprOf(mLeft)) && ShapeOf(mLeft) == old(ShapeOf(mLeft))
      decreases T.Count(ShapeOf(mRight)), 2
    {
      T.PopIgnoresTop(mRight.Shape, mData);
      SwapDown(mRight);
      var rest;
      rest, popped := Pop(mRight);
      mRight := rest;
    }

    /** Exchanges data with a child; no link changes. */
    method SwapDown(sub: LocHeapNode)
      requires Links() && (sub == mLeft || sub == mRight)
      modifies this`mData, sub`mData, sub`Shape
      ensures Links() && mData == old(sub.mData) && sub.mData == old(mData)
      ensures sub.Shape == old(sub.Shape).(data := old(mData))
      ensures sub == mLeft ==> ShapeOf(mRight) == old(ShapeOf(mRight))
      ensures sub == mRight ==> ShapeOf(mLeft) == old(ShapeOf(mLeft))
    {
      mData, sub.mData := sub.mData, mData;
      sub.Shape := sub.Shape.(data := sub.mData);
    }

    // ---------- remove ----------

    static ghost function Without(nodes: set<LocHeapNode>, node: LocHeapNode?): set<LocHeapNode> {
      if node == null then nodes else nodes - {node}
    }

    /** Searches for `data` by identity, skipping what it outranks, and pops the node that holds it.
        `newTop` is what the caller's link to `top` becomes. */
    static method Remove(top: LocHeapNode, data: Rankable)
      returns (newTop: LocHeapNode?, removed: LocHeapNode?)
      requires top.Valid()
      modifies top.Repr
      ensures removed != null <==> T.Remove(old(top.Shape), data).found
      ensures removed != null ==>
                removed in old(top.Repr) && removed.mData == data
                && removed.mLeft == null && removed.mRight == null
      ensures newTop == if T.Remove(old(top.Shape), data).tree.Nil? then null else top
      ensures ValidOrNull(newTop) && ShapeOf(newTop) == T.Remove(old(top.Shape), data).tree
      ensures ReprOf(newTop) == Without(old(top.Repr), removed)
      decreases T.Count(top.Shape), 1
    {
      newTop, removed := top, null;
      if data == top.mData {
        newTop, removed := Pop(top);
      } else if !T.OutRanks(data, top.mData) {
        removed := top.RemoveDeeper(data);
      }
    }

    /** Removal below the top, which then has one node fewer below it. */
    method RemoveDeeper(data: Rankable) returns (removed: LocHeapNode?)
      requires Valid() && data != mData && !T.OutRanks(data, mData)
      modifies Repr
      ensures Valid() && Shape == T.Remove(old(Shape), data).tree
      ensures removed != null <==> T.Remove(old(Shape), data).found
      ensures removed != null ==>
                removed in old(Repr) && removed.mData == data
                && removed.mLeft == null && removed.mRight == null
      ensures Repr == Without(old(Repr), removed)
      decreases T.Count(Shape), 0
    {
      removed := RemoveInside(data);
      if removed != null {
        Resize(-1);
      } else {
        LinksMakeValid();
      }
    }

    /** The links after that removal, the node itself not yet brought up to date. */
    method RemoveInside(data: Rankable) returns (removed: LocHeapNode?)
      requires Valid() && data != mData && !T.OutRanks(data, mData)
      modifies this`mLeft, this`mRight, ReprOf(mLeft), ReprOf(mRight)
      ensures Links()
      ensures removed != null <==> T.Remove(old(Shape), data).found
      ensures removed != null ==>
                removed in old(Repr) && removed.mData == data
                && removed.mLeft == null && removed.mRight == null
      ensures {this} + ReprOf(mLeft) + ReprOf(mRight) == Without(old(Repr), removed)
      ensures T.Node(if removed != null then mSize - 1 else mSize, mData, ShapeOf(mLeft), ShapeOf(mRight))
           == T.Remove(old(Shape), data).tree
      decreases T.Count(ShapeOf(mLeft)) + T.Count(ShapeOf(mRight)), 4
    {
      assert Shape == T.Node(mSize, mData, ShapeOf(mLeft), ShapeOf(mRight));
      T.RemoveBelowTop(Shape, data);
      T.RemoveFromMisses(ShapeOf(mLeft), data);
      T.RemoveFromMisses(ShapeOf(mRight), data);
      removed := RemoveBelow(data);
    }

    /** Looks left, and right only if left had nothing. */
    method RemoveBelow(data: Rankable) returns (removed: LocHeapNode?)
      requires Links()
      modifies this`mLeft, this`mRight, ReprOf(mLeft), ReprOf(mRight)
      ensures Links()
      ensures removed != null <==>
                T.RemoveFrom(old(ShapeOf(mLeft)), data).found || T.RemoveFrom(old(ShapeOf(mRight)), data).found
      ensures removed != null ==>
                removed in old(ReprOf(mLeft)) + old(ReprOf(mRight)) && removed.mData == data
                && removed.mLeft == null && removed.mRight == null
      ensures ShapeOf(mLeft) == T.RemoveFrom(old(ShapeOf(mLeft)), data).tree
      ensures ShapeOf(mRight) == if T.RemoveFrom(old(ShapeOf(mLeft)), data).found then old(ShapeOf(mRight))
                                 else T.RemoveFrom(old(ShapeOf(mRight)), data).tree
      ensures {this} + ReprOf(mLeft) + ReprOf(mRight)
           == Without({this} + old(ReprOf(mLeft)) + old(ReprOf(mRight)), removed)
      decreases T.Count(ShapeOf(mLeft)) + T.Count(ShapeOf(mRight)), 3
    {
      ghost var l, r := ReprOf(mLeft), ReprOf(mRight);
      removed := null;
      if mLeft != null {
        removed := RemoveLeft(data);
      }
      if removed != null {
        Ungroup({this}, l, r, removed);
      } else if mRight != null {
        removed := RemoveRight(data);
        if removed != null {
          Ungroup({this}, l, r, removed);
        }
      }
    }

    method RemoveLeft(data: Rankable) returns (removed: LocHeapNode?)
      requires Links() && mLeft != null
      modifies this`mLeft, ReprOf(mLeft)
      ensures Links()
      ensures removed != null <==> T.Remove(old(mLeft.Shape), data).found
      ensures removed != null ==>
                removed in old(ReprOf(mLeft)) && removed.mData == data
                && removed.mLeft == null && removed.mRight == null
      ensures ReprOf(mLeft) == Without(old(ReprOf(mLeft)), removed)
      ensures ShapeOf(mLeft) == T.Remove(old(mLeft.Shape), data).tree
      ensures ReprOf(mRight) == old(ReprOf(mRight)) && ShapeOf(mRight) == old(ShapeOf(mRight))
      decreases T.Count(ShapeOf(mLeft)), 2
    {
      var rest;
      rest, removed := Remove(mLeft, data);
      mLeft := rest;
    }

    method RemoveRight(data: Rankable) returns (removed: LocHeapNode?)
      requires Links() && mRight != null
      modifies this`mRight, ReprOf(mRight)
      ensures Links()
      ensures removed != null <==> T.Remove(old(mRight.Shape), data).found
      ensures removed != null ==>
                removed in old(ReprOf(mRight)) && removed.mData == data
                && removed.mLeft == null && removed.mRight == null
      ensures ReprOf(mRight) == Without(old(ReprOf(mRight)), removed)
      ensures ShapeOf(mRight) == T.Remove(old(mRight.Shape), data).tree
      ensures ReprOf(mLeft) == old(ReprOf(mLeft)) && ShapeOf(mLeft) == old(ShapeOf(mLeft))
      decreases T.Count(ShapeOf(mRight)), 2
    {
      var rest;
      rest, removed := Remove(mRight, data);
      mRight := rest;
    }

    // ---------- checkNodes ----------

    static lemma ShapeAgrees(node: LocHeapNode?)
      requires ValidOrNull(node)
      ensures node != null ==>
                node.Shape.Node? && node.Shape.size == node.mSize && node.Shape.data == node.mData
    {
    }

    /** The unit-test check, proved to accept exactly the sound trees. */
    predicate CheckNodes()
      requires Valid()
      reads Repr
      ensures CheckNodes() <==> T.CheckNodes(Shape)
      decreases Repr
    {
      ShapeAgrees(mLeft);
      ShapeAgrees(mRight);
      && (mLeft != null ==> !T.OutRanks(mLeft.mData, mData) && mLeft.CheckNodes())
      && (mRight != null ==> !T.OutRanks(mRight.mData, mData) && mRight.CheckNodes())
      && mSize - (if mLeft == null then 0 else mLeft.mSize)
               - (if mRight == null then 0 else mRight.mSize) == 1
    }
  }

  /** The heap clients see. Ranked objects go in and come out by reference; nodes never do. */
  class LocHeap {
    var mTree: LocHeapNode?

    ghost predicate Valid()
      reads this, mTree, LocHeapNode.ReprOf(mTree)
    {
      LocHeapNode.ValidOrNull(mTree)
    }

    ghost function Shape(): T.Tree
      reads this, mTree
    {
      LocHeapNode.ShapeOf(mTree)
    }

    ghost function Repr(): set<LocHeapNode>
      reads this, mTree
    {
      LocHeapNode.ReprOf(mTree)
    }

    constructor ()
      ensures Valid() && Shape() == T.Nil && Repr() == {}
    {
      mTree := null;
    }

    method Push(x: Rankable)
      requires Valid()
      modifies this, Repr()
      ensures Valid() && fresh(Repr() - old(Repr()))
      ensures Shape() == T.Push(old(Shape()), x)
    {
      var node := new LocHeapNode(x);
      if mTree == null {
        mTree := node;
      } else {
        mTree.Push(node);
      }
    }

    method Peek() returns (top: Option<Rankable>)
      requires Valid()
      ensures top == T.TopOf(Shape())
    {
      top := if mTree == null then None else Some(mTree.mData);
    }

    method Pop() returns (top: Option<Rankable>)
      requires Valid()
      modifies this, Repr()
      ensures Valid() && Repr() <= old(Repr())
      ensures top == T.TopOf(old(Shape()))
      ensures Shape() == if old(Shape()).Nil? then T.Nil else T.Pop(old(Shape()))
    {
      top := None;
      if mTree != null {
        var rest, node := LocHeapNode.Pop(mTree);
        mTree := rest;
        top := Some(node.mData);
      }
    }

    method Remove(x: Rankable) returns (removed: Option<Rankable>)
      requires Valid()
      modifies this, Repr()
      ensures Valid() && Repr() <= old(Repr())
      ensures removed == if T.RemoveFrom(old(Shape()), x).found then Some(x) else None
      ensures Shape() == T.RemoveFrom(old(Shape()), x).tree
    {
      removed := None;
      if mTree != null {
        var rest, node := LocHeapNode.Remove(mTree, x);
        mTree := rest;
        if node != null {
          removed := Some(node.mData);
        }
      }
    }
  }
}
