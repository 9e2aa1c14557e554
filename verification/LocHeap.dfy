/** gps/utils/LocHeap.cpp as it is written: nodes that are rewritten in place, each method tied to
    the function of module HeapTree that says what it does to the tree. */
module LocHeap {
  import opened Wrappers
  import opened HeapTree

  class LocHeapNode<T(==, !new)> {
    var mSize: int
    var mLeft: LocHeapNode?<T>
    var mRight: LocHeapNode?<T>
    var mData: T
    ghost var Repr: set<object>
    ghost var Shape: Tree<T>

    ghost predicate Valid()
      reads this, Repr
      ensures Valid() ==> this in Repr
    {
      && this in Repr
      && (mLeft != null ==>
           && mLeft in Repr && mLeft.Repr <= Repr && this !in mLeft.Repr && mLeft.Valid())
      && (mRight != null ==>
           && mRight in Repr && mRight.Repr <= Repr && this !in mRight.Repr && mRight.Valid())
      && (mLeft != null && mRight != null ==> mLeft.Repr !! mRight.Repr)
      && Shape == Node(mSize, mData,
                       if mLeft == null then Leaf else mLeft.Shape,
                       if mRight == null then Leaf else mRight.Shape)
    }

    constructor (data: T)
      ensures Valid() && fresh(Repr) && Repr == {this}
      ensures Shape == Single(data)
    {
      mSize, mLeft, mRight, mData := 1, null, null, data;
      Repr, Shape := {this}, Single(data);
    }

    method Push(node: LocHeapNode<T>, outRanks: (T, T) -> bool)
      requires RankOrder(outRanks)
      requires Valid() && node.Valid() && node.Repr == {node} && node !in Repr
      requires node.Shape == Single(node.mData)
      modifies Repr, node
      ensures Valid() && Repr == old(Repr) + {node}
      ensures Shape == HeapTree.Push(old(Shape), old(node.mData), outRanks)
      decreases Repr, 1
    {
      if outRanks(node.mData, mData) {
        Shape, mData, node.mData, node.Shape :=
          Shape.(data := node.mData), node.mData, mData, Single(mData);
      }
      Drop(node, outRanks);
    }

    /** The second half of push: `node` is ensured to rank no higher, and goes into a subtree. */
    method Drop(node: LocHeapNode<T>, outRanks: (T, T) -> bool)
      requires RankOrder(outRanks) && !outRanks(node.mData, mData)
      requires Valid() && node.Valid() && node.Repr == {node} && node !in Repr
      requires node.Shape == Single(node.mData)
      modifies Repr, node
      ensures Valid() && Repr == old(Repr) + {node}
      ensures Shape == HeapTree.Push(old(Shape), old(node.mData), outRanks)
      decreases Repr, 0
    {
      ghost var shape, x := Shape, node.mData;
      if mLeft == null {
        mLeft := node;
      } else if mRight == null {
        mRight := node;
      } else if mLeft.mSize <= mRight.mSize {
        mLeft.Push(node, outRanks);
      } else {
        mRight.Push(node, outRanks);
      }
      mSize, Repr, Shape := mSize + 1, Repr + {node}, HeapTree.Push(shape, x, outRanks);
    }

    /** `top` is passed by reference in the source: `rest` is its value after the call. */
    static method Pop(top: LocHeapNode<T>, outRanks: (T, T) -> bool)
      returns (rest: LocHeapNode?<T>, popped: LocHeapNode<T>)
      requires top.Valid()
      modifies top.Repr
      ensures popped in old(top.Repr) && popped.mData == old(top.mData)
      ensures HeapTree.Pop(old(top.Shape), outRanks) == if rest == null then Leaf else rest.Shape
      ensures rest != null ==>
                && rest == top && rest.Valid()
                && rest.Repr <= old(top.Repr) && popped !in rest.Repr
      decreases top.Repr, 1
    {
      if top.mLeft == null && top.mRight == null {
        return null, top;
      }
      var left := top.mLeft != null
                  && (top.mRight == null || outRanks(top.mLeft.mData, top.mRight.mData));
      var subTop := if left then top.mLeft else top.mRight;
      top.SwapWith(subTop);
      popped := top.PopBelow(left, outRanks);
      return top, popped;
    }

    /** The recursive half of pop: the swapped-down data leaves through the chosen child. */
    method PopBelow(left: bool, outRanks: (T, T) -> bool) returns (popped: LocHeapNode<T>)
      requires Valid() && (if left then mLeft else mRight) != null
      modifies Repr
      ensures Valid() && Repr == old(Repr) - {popped} && popped in old(Repr)
      ensures popped.mData == old((if left then mLeft else mRight).mData)
      ensures var t := old(Shape);
              && t.Node? && (if left then t.left else t.right).Node?
              && Shape == if left then Node(t.size - 1, t.data, HeapTree.Pop(t.left, outRanks), t.right)
                          else Node(t.size - 1, t.data, t.left, HeapTree.Pop(t.right, outRanks))
      decreases Repr, 0
    {
      ghost var t := Shape;
      if left {
        mLeft, popped := Pop(mLeft, outRanks);
        Shape := Node(t.size - 1, t.data, HeapTree.Pop(t.left, outRanks), t.right);
      } else {
        mRight, popped := Pop(mRight, outRanks);
        Shape := Node(t.size - 1, t.data, t.left, HeapTree.Pop(t.right, outRanks));
      }
      mSize, Repr := mSize - 1, Repr - {popped};
    }

    /** Swaps the data of this node with that of one of its children. */
    method SwapWith(child: LocHeapNode<T>)
      requires Valid() && (child == mLeft || child == mRight)
      modifies this`mData, this`Shape, child`mData, child`Shape
      ensures Valid()
      ensures mData == old(child.mData) && child.mData == old(mData)
      ensures old(child.Shape).Node? && child.Shape == old(child.Shape).(data := old(mData))
    {
      mData, child.mData, child.Shape := child.mData, mData, child.Shape.(data := mData);
      Shape := Node(mSize, mData, if mLeft == null then Leaf else mLeft.Shape,
                                  if mRight == null then Leaf else mRight.Shape);
    }

    /** Search by address, left subtree first, pruned where `data` outranks the subtree's top. */
    static method Remove(top: LocHeapNode<T>, data: T, outRanks: (T, T) -> bool)
      returns (rest: LocHeapNode?<T>, removed: LocHeapNode?<T>)
      requires top.Valid()
      modifies top.Repr
      ensures (removed != null) == HeapTree.Remove(old(top.Shape), data, outRanks).1
      ensures HeapTree.Remove(old(top.Shape), data, outRanks).0
              == if rest == null then Leaf else rest.Shape
      ensures rest != null ==>
                && rest == top && rest.Valid() && rest.Repr <= old(top.Repr)
                && (removed != null ==> removed !in rest.Repr)
      ensures removed != null ==> removed in old(top.Repr) && removed.mData == data
      ensures removed == null ==> rest == top && rest.Shape == old(top.Shape)
      decreases top.Repr, 1
    {
      if data == top.mData {
        rest, removed := Pop(top, outRanks);
        return;
      }
      rest, removed := top, null;
      if !outRanks(data, top.mData) {
        RemoveCounts(top.Shape.left, data, outRanks);
        RemoveCounts(top.Shape.right, data, outRanks);
        if top.mLeft != null {
          removed := top.RemoveBelow(true, data, outRanks);
        }
        if removed == null && top.mRight != null {
          removed := top.RemoveBelow(false, data, outRanks);
        }
      }
    }

    /** The recursive half of remove: the search goes on in one subtree. */
    method RemoveBelow(left: bool, data: T, outRanks: (T, T) -> bool)
      returns (removed: LocHeapNode?<T>)
      requires Valid() && (if left then mLeft else mRight) != null
      modifies Repr
      ensures Valid() && Repr <= old(Repr) && mData == old(mData)
      ensures removed != null ==> removed in old(Repr) && removed !in Repr && removed.mData == data
      ensures removed == null ==> Shape == old(Shape)
      ensures var t := old(Shape);
              && t.Node?
              && (removed != null) == HeapTree.Remove(if left then t.left else t.right, data, outRanks).1
              && (removed != null ==>
                   Shape == if left then
                              Node(t.size - 1, t.data, HeapTree.Remove(t.left, data, outRanks).0, t.right)
                            else
                              Node(t.size - 1, t.data, t.left, HeapTree.Remove(t.right, data, outRanks).0))
      decreases Repr, 0
    {
      ghost var t := Shape;
      if left {
        mLeft, removed := Remove(mLeft, data, outRanks);
      } else {
        mRight, removed := Remove(mRight, data, outRanks);
      }
      if removed != null {
        mSize, Repr := mSize - 1, Repr - {removed};
        Shape := if left then Node(t.size - 1, t.data, HeapTree.Remove(t.left, data, outRanks).0, t.right)
                 else Node(t.size - 1, t.data, t.left, HeapTree.Remove(t.right, data, outRanks).0);
      }
    }

    method CheckNodes(outRanks: (T, T) -> bool) returns (ok: bool)
      requires Valid()
      ensures ok == HeapTree.CheckNodes(Shape, outRanks)
      decreases Repr
    {
      var totalSize := mSize;
      if mLeft != null {
        if outRanks(mLeft.mData, mData) {
          return false;
        }
        var sub := mLeft.CheckNodes(outRanks);
        if !sub {
          return false;
        }
        totalSize := totalSize - mLeft.mSize;
      }
      if mRight != null {
        if outRanks(mRight.mData, mData) {
          return false;
        }
        var sub := mRight.CheckNodes(outRanks);
        if !sub {
          return false;
        }
        totalSize := totalSize - mRight.mSize;
      }
      return totalSize == 1;
    }
  }

  class LocHeap<T(==, !new)> {
    var mTree: LocHeapNode?<T>
    const outRanks: (T, T) -> bool
    ghost var Repr: set<object>

    ghost predicate Valid()
      reads this, Repr
      ensures Valid() ==> this in Repr
    {
      && this in Repr
      && RankOrder(outRanks)
      && (mTree != null ==>
           mTree in Repr && mTree.Repr <= Repr && this !in mTree.Repr && mTree.Valid())
      && HeapTree.Valid(Tree(), outRanks)
    }

    ghost function Tree(): Tree<T>
      reads this, mTree
    {
      if mTree == null then Leaf else mTree.Shape
    }

    constructor (outRanks: (T, T) -> bool)
      requires RankOrder(outRanks)
      ensures Valid() && fresh(Repr) && Tree() == Leaf && this.outRanks == outRanks
    {
      this.mTree := null;
      this.outRanks := outRanks;
      this.Repr := {this};
    }

    method Push(x: T)
      requires Valid()
      modifies Repr
      ensures Valid() && fresh(Repr - old(Repr))
      ensures Tree() == HeapTree.Push(old(Tree()), x, outRanks)
      ensures forall y :: Occurs(Tree(), y) == old(Occurs(Tree(), y)) + if x == y then 1 else 0
    {
      PushAdds(Tree(), x, outRanks);
      var heapNode := new LocHeapNode(x);
      if mTree == null {
        mTree := heapNode;
      } else {
        mTree.Push(heapNode, outRanks);
      }
      Repr := Repr + {heapNode};
    }

    method Peek() returns (top: Option<T>)
      requires Valid()
      ensures top == if Tree().Leaf? then None else Some(Tree().data)
      ensures top.Some? ==>
                && Occurs(Tree(), top.value) > 0
                && forall y :: Occurs(Tree(), y) > 0 ==> !outRanks(y, top.value)
    {
      if mTree == null {
        return None;
      }
      NothingOutranksTop(Tree(), outRanks);
      return Some(mTree.mData);
    }

    method Pop() returns (popped: Option<T>)
      requires Valid()
      modifies Repr
      ensures Valid() && fresh(Repr - old(Repr))
      ensures popped.None? <==> old(Tree()).Leaf?
      ensures popped.None? ==> Tree().Leaf?
      ensures popped.Some? ==>
                && popped.value == old(Tree()).data
                && Tree() == HeapTree.Pop(old(Tree()), outRanks)
                && (forall y :: old(Occurs(Tree(), y))
                                == Occurs(Tree(), y) + if popped.value == y then 1 else 0)
                && (forall y :: old(Occurs(Tree(), y)) > 0 ==> !outRanks(y, popped.value))
    {
      if mTree == null {
        return None;
      }
      PopRemovesTop(Tree(), outRanks);
      var rest, heapNode := LocHeapNode<T>.Pop(mTree, outRanks);
      mTree := rest;
      return Some(heapNode.mData);
    }

    /** Removes by identity. It answers with the element exactly when the heap held it. */
    method Remove(x: T) returns (removed: Option<T>)
      requires Valid()
      modifies Repr
      ensures Valid() && fresh(Repr - old(Repr))
      ensures removed == if old(Occurs(Tree(), x)) > 0 then Some(x) else None
      ensures Tree() == HeapTree.Remove(old(Tree()), x, outRanks).0
      ensures removed.None? ==> Tree() == old(Tree())
      ensures forall y :: old(Occurs(Tree(), y))
                          == Occurs(Tree(), y) + if removed == Some(y) then 1 else 0
    {
      RemoveIsComplete(Tree(), x, outRanks);
      if mTree == null {
        return None;
      }
      var rest, heapNode := LocHeapNode<T>.Remove(mTree, x, outRanks);
      mTree := rest;
      return if heapNode != null then Some(heapNode.mData) else None;
    }
  }
}
