/** The heap of gps/utils/LocHeap.cpp as a value: the tree that a LocHeapNode is the root of,
    the three algorithms that rewrite it, and what they promise.

    `outRanks` stands for LocRankable::outRanks. Equality of elements stands for equality of
    addresses, which is how the source identifies an element. */
module HeapTree {

  datatype Tree<T> = Leaf | Node(size: int, data: T, left: Tree<T>, right: Tree<T>)

  /** "Does not outrank" is a total preorder. */
  ghost predicate RankOrder<T(!new)>(outRanks: (T, T) -> bool) {
    && (forall a, b :: outRanks(a, b) ==> !outRanks(b, a))
    && (forall a, b, c :: !outRanks(a, b) && !outRanks(b, c) ==> !outRanks(a, c))
  }

  ghost function Elems<T>(t: Tree<T>): multiset<T> {
    match t
    case Leaf => multiset{}
    case Node(_, d, l, r) => multiset{d} + Elems(l) + Elems(r)
  }

  ghost function Occurs<T>(t: Tree<T>, x: T): nat {
    if t.Leaf? then 0
    else (if t.data == x then 1 else 0) + Occurs(t.left, x) + Occurs(t.right, x)
  }

  ghost function Count<T>(t: Tree<T>): nat {
    if t.Leaf? then 0 else 1 + Count(t.left) + Count(t.right)
  }

  /** Nothing in `t` outranks `d`. */
  ghost predicate Tops<T>(d: T, t: Tree<T>, outRanks: (T, T) -> bool) {
    t.Node? ==> !outRanks(t.data, d) && Tops(d, t.left, outRanks) && Tops(d, t.right, outRanks)
  }

  /** No element of a subtree outranks the root of that subtree. */
  ghost predicate Ordered<T>(t: Tree<T>, outRanks: (T, T) -> bool) {
    t.Node? ==>
      && Tops(t.data, t.left, outRanks) && Tops(t.data, t.right, outRanks)
      && Ordered(t.left, outRanks) && Ordered(t.right, outRanks)
  }

  /** Every node records how many nodes its subtree holds, itself included. */
  ghost predicate Sized<T>(t: Tree<T>) {
    t.Node? ==> t.size == Count(t) && Sized(t.left) && Sized(t.right)
  }

  ghost predicate Valid<T>(t: Tree<T>, outRanks: (T, T) -> bool) {
    Ordered(t, outRanks) && Sized(t)
  }

  lemma {:induction false} CountsElems<T>(t: Tree<T>)
    ensures |Elems(t)| == Count(t)
  {
    if t.Node? {
      CountsElems(t.left);
      CountsElems(t.right);
    }
  }

  lemma {:induction false} OccursElems<T>(t: Tree<T>, x: T)
    ensures Elems(t)[x] == Occurs(t, x)
  {
    if t.Node? {
      OccursElems(t.left, x);
      OccursElems(t.right, x);
    }
  }

  lemma OneMore<T>(bag: multiset<T>, bag': multiset<T>, x: T)
    requires forall y :: bag[y] == bag'[y] + if x == y then 1 else 0
    ensures bag == bag' + multiset{x}
  {
    forall y ensures bag[y] == (bag' + multiset{x})[y] {
      assert bag[y] == bag'[y] + if x == y then 1 else 0;
    }
  }

  /** Two trees whose occurrences differ by one `x` hold the same elements but for that `x`. */
  lemma DifferByOne<T>(t: Tree<T>, t': Tree<T>, x: T)
    requires forall y :: Occurs(t, y) == Occurs(t', y) + if x == y then 1 else 0
    ensures Elems(t) == Elems(t') + multiset{x}
  {
    forall y ensures Elems(t)[y] == Elems(t')[y] + if x == y then 1 else 0 {
      OccursElems(t, y);
      OccursElems(t', y);
    }
    OneMore(Elems(t), Elems(t'), x);
  }

  lemma {:induction false} TopsEach<T>(d: T, t: Tree<T>, x: T, outRanks: (T, T) -> bool)
    requires Tops(d, t, outRanks) && Occurs(t, x) > 0
    ensures !outRanks(x, d)
  {
    if x != t.data {
      if Occurs(t.left, x) > 0 {
        TopsEach(d, t.left, x, outRanks);
      } else {
        TopsEach(d, t.right, x, outRanks);
      }
    }
  }

  /** Ordered is what it is meant to be: nothing in the tree outranks the top. */
  lemma NothingOutranksTop<T(!new)>(t: Tree<T>, outRanks: (T, T) -> bool)
    requires t.Node? && RankOrder(outRanks) && Ordered(t, outRanks)
    ensures Occurs(t, t.data) > 0
    ensures forall x :: Occurs(t, x) > 0 ==> !outRanks(x, t.data)
  {
    forall x | Occurs(t, x) > 0 ensures !outRanks(x, t.data) {
      TopsEach(t.data, t, x, outRanks);
    }
  }

  /** What ranks no higher than `d` also ranks no higher than whatever `d` does not outrank. */
  lemma {:induction false} TopsTransfers<T(!new)>(d: T, e: T, t: Tree<T>, outRanks: (T, T) -> bool)
    requires RankOrder(outRanks) && Tops(d, t, outRanks) && !outRanks(d, e)
    ensures Tops(e, t, outRanks)
  {
    if t.Node? {
      TopsTransfers(d, e, t.left, outRanks);
      TopsTransfers(d, e, t.right, outRanks);
    }
  }

  function Single<T>(x: T): Tree<T> {
    Node(1, x, Leaf, Leaf)
  }

  function SizeOf<T>(t: Tree<T>): int {
    if t.Leaf? then 0 else t.size
  }

  // ---------------------------------------------------------------- checkNodes

  predicate CheckNodes<T>(t: Tree<T>, outRanks: (T, T) -> bool)
    requires t.Node?
  {
    && (t.left.Node? ==> !outRanks(t.left.data, t.data) && CheckNodes(t.left, outRanks))
    && (t.right.Node? ==> !outRanks(t.right.data, t.data) && CheckNodes(t.right, outRanks))
    && t.size - SizeOf(t.left) - SizeOf(t.right) == 1
  }

  lemma CheckSubtree<T(!new)>(d: T, t: Tree<T>, outRanks: (T, T) -> bool)
    requires RankOrder(outRanks)
    ensures Sized(t) ==> SizeOf(t) == Count(t)
    ensures Ordered(t, outRanks) ==> (Tops(d, t, outRanks) <==> t.Node? ==> !outRanks(t.data, d))
  {
    if t.Node? && Ordered(t, outRanks) && !outRanks(t.data, d) {
      TopsTransfers(t.data, d, t.left, outRanks);
      TopsTransfers(t.data, d, t.right, outRanks);
    }
  }

  /** The local test that the source runs at each node is exactly the global meaning. */
  lemma {:induction false} CheckNodesIsValid<T(!new)>(t: Tree<T>, outRanks: (T, T) -> bool)
    requires t.Node? && RankOrder(outRanks)
    ensures CheckNodes(t, outRanks) <==> Valid(t, outRanks)
  {
    if t.left.Node? {
      CheckNodesIsValid(t.left, outRanks);
    }
    if t.right.Node? {
      CheckNodesIsValid(t.right, outRanks);
    }
    PartIsValid(t.data, t.left, outRanks);
    PartIsValid(t.data, t.right, outRanks);
    assert CheckNodes(t, outRanks) <==>
           Part(t.data, t.left, outRanks) && Part(t.data, t.right, outRanks)
           && t.size - SizeOf(t.left) - SizeOf(t.right) == 1;
    if Sized(t.left) && Sized(t.right) {
      assert t.size - SizeOf(t.left) - SizeOf(t.right) == 1 <==> t.size == Count(t);
    }
  }

  /** What the test makes of one subtree of a node with data `d`. */
  ghost predicate Part<T>(d: T, t: Tree<T>, outRanks: (T, T) -> bool) {
    t.Node? ==> !outRanks(t.data, d) && CheckNodes(t, outRanks)
  }

  lemma PartIsValid<T(!new)>(d: T, t: Tree<T>, outRanks: (T, T) -> bool)
    requires RankOrder(outRanks)
    requires t.Node? ==> (CheckNodes(t, outRanks) <==> Valid(t, outRanks))
    ensures Part(d, t, outRanks) <==> Valid(t, outRanks) && Tops(d, t, outRanks)
    ensures Sized(t) ==> SizeOf(t) == Count(t)
  {
    CheckSubtree(d, t, outRanks);
  }

  // ---------------------------------------------------------------------- push

  function Push<T>(t: Tree<T>, x: T, outRanks: (T, T) -> bool): Tree<T> {
    if t.Leaf? then Single(x)
    else
      var swap := outRanks(x, t.data);
      var top := if swap then x else t.data;
      var low := if swap then t.data else x;
      if t.left.Leaf? then Node(t.size + 1, top, Single(low), t.right)
      else if t.right.Leaf? then Node(t.size + 1, top, t.left, Single(low))
      else if t.left.size <= t.right.size then
        Node(t.size + 1, top, Push(t.left, low, outRanks), t.right)
      else
        Node(t.size + 1, top, t.left, Push(t.right, low, outRanks))
  }

  lemma {:induction false} PushCounts<T>(t: Tree<T>, x: T, outRanks: (T, T) -> bool)
    ensures Count(Push(t, x, outRanks)) == Count(t) + 1
    ensures Sized(t) ==> Sized(Push(t, x, outRanks))
  {
    if t.Node? {
      var low := if outRanks(x, t.data) then t.data else x;
      PushCounts(t.left, low, outRanks);
      PushCounts(t.right, low, outRanks);
    }
  }

  lemma {:induction false} PushOccurrences<T>(t: Tree<T>, x: T, y: T, outRanks: (T, T) -> bool)
    ensures Occurs(Push(t, x, outRanks), y) == Occurs(t, y) + if x == y then 1 else 0
  {
    if t.Node? {
      var low := if outRanks(x, t.data) then t.data else x;
      PushOccurrences(t.left, low, y, outRanks);
      PushOccurrences(t.right, low, y, outRanks);
    }
  }

  lemma {:induction false} PushTops<T(!new)>(d: T, t: Tree<T>, x: T, outRanks: (T, T) -> bool)
    requires Tops(d, t, outRanks) && !outRanks(x, d)
    ensures Tops(d, Push(t, x, outRanks), outRanks)
  {
    if t.Node? {
      var low := if outRanks(x, t.data) then t.data else x;
      PushTops(d, t.left, low, outRanks);
      PushTops(d, t.right, low, outRanks);
    }
  }

  lemma {:induction false} PushOrdered<T(!new)>(t: Tree<T>, x: T, outRanks: (T, T) -> bool)
    requires RankOrder(outRanks) && Ordered(t, outRanks)
    ensures Ordered(Push(t, x, outRanks), outRanks)
  {
    if t.Node? {
      var swap := outRanks(x, t.data);
      var top := if swap then x else t.data;
      var low := if swap then t.data else x;
      TopsTransfers(t.data, top, t.left, outRanks);
      TopsTransfers(t.data, top, t.right, outRanks);
      PushTops(top, t.left, low, outRanks);
      PushTops(top, t.right, low, outRanks);
      PushOrdered(t.left, low, outRanks);
      PushOrdered(t.right, low, outRanks);
    }
  }

  /** A push adds exactly the element, keeps the tree valid, and puts the new element on top
      exactly when it outranks the old top. */
  lemma PushAdds<T(!new)>(t: Tree<T>, x: T, outRanks: (T, T) -> bool)
    requires RankOrder(outRanks) && Valid(t, outRanks)
    ensures Valid(Push(t, x, outRanks), outRanks)
    ensures forall y :: Occurs(Push(t, x, outRanks), y) == Occurs(t, y) + if x == y then 1 else 0
    ensures Push(t, x, outRanks).Node?
    ensures Push(t, x, outRanks).data == if t.Leaf? || outRanks(x, t.data) then x else t.data
  {
    PushCounts(t, x, outRanks);
    PushOrdered(t, x, outRanks);
    forall y {
      PushOccurrences(t, x, y, outRanks);
    }
  }

  // ----------------------------------------------------------------------- pop

  /** The child that takes the place of the popped root. */
  predicate LeftRises<T>(t: Tree<T>, outRanks: (T, T) -> bool)
    requires t.Node? && (t.left.Node? || t.right.Node?)
  {
    t.left.Node? && (t.right.Node? ==> outRanks(t.left.data, t.right.data))
  }

  /** What is left after the root's element was popped. */
  function Pop<T>(t: Tree<T>, outRanks: (T, T) -> bool): Tree<T>
    requires t.Node?
  {
    if t.left.Leaf? && t.right.Leaf? then Leaf
    else if LeftRises(t, outRanks) then
      Node(t.size - 1, t.left.data, Pop(t.left, outRanks), t.right)
    else
      Node(t.size - 1, t.right.data, t.left, Pop(t.right, outRanks))
  }

  lemma {:induction false} PopCounts<T>(t: Tree<T>, outRanks: (T, T) -> bool)
    requires t.Node?
    ensures Count(t) == Count(Pop(t, outRanks)) + 1
    ensures Sized(t) ==> Sized(Pop(t, outRanks))
  {
    if t.left.Node? || t.right.Node? {
      PopCounts(if LeftRises(t, outRanks) then t.left else t.right, outRanks);
    }
  }

  lemma {:induction false} PopOccurrences<T>(t: Tree<T>, y: T, outRanks: (T, T) -> bool)
    requires t.Node?
    ensures Occurs(t, y) == Occurs(Pop(t, outRanks), y) + if t.data == y then 1 else 0
  {
    if t.left.Node? || t.right.Node? {
      PopOccurrences(if LeftRises(t, outRanks) then t.left else t.right, y, outRanks);
    }
  }

  lemma {:induction false} PopTops<T>(d: T, t: Tree<T>, outRanks: (T, T) -> bool)
    requires t.Node? && Tops(d, t, outRanks)
    ensures Tops(d, Pop(t, outRanks), outRanks)
  {
    if t.left.Node? || t.right.Node? {
      PopTops(d, if LeftRises(t, outRanks) then t.left else t.right, outRanks);
    }
  }

  lemma {:induction false} PopOrdered<T(!new)>(t: Tree<T>, outRanks: (T, T) -> bool)
    requires t.Node? && RankOrder(outRanks) && Ordered(t, outRanks)
    ensures Ordered(Pop(t, outRanks), outRanks)
  {
    if t.left.Node? || t.right.Node? {
      var left := LeftRises(t, outRanks);
      var (up, other) := if left then (t.left, t.right) else (t.right, t.left);
      PopOrdered(up, outRanks);
      PopTops(up.data, up, outRanks);
      if other.Node? {
        assert !outRanks(other.data, up.data);
        TopsTransfers(other.data, up.data, other.left, outRanks);
        TopsTransfers(other.data, up.data, other.right, outRanks);
      }
    }
  }

  /** Pop takes out the element on top, which nothing in the tree outranks, and nothing else. */
  lemma PopRemovesTop<T(!new)>(t: Tree<T>, outRanks: (T, T) -> bool)
    requires t.Node? && RankOrder(outRanks) && Valid(t, outRanks)
    ensures Valid(Pop(t, outRanks), outRanks)
    ensures forall y :: Occurs(t, y) == Occurs(Pop(t, outRanks), y) + if t.data == y then 1 else 0
    ensures forall y :: Occurs(t, y) > 0 ==> !outRanks(y, t.data)
  {
    PopCounts(t, outRanks);
    PopOrdered(t, outRanks);
    forall y {
      PopOccurrences(t, y, outRanks);
    }
    NothingOutranksTop(t, outRanks);
  }

  // -------------------------------------------------------------------- remove

  /** The pruned search: left subtree first, and no subtree whose root `x` outranks. */
  function Remove<T(==)>(t: Tree<T>, x: T, outRanks: (T, T) -> bool): (Tree<T>, bool) {
    if t.Leaf? then (Leaf, false)
    else if x == t.data then (Pop(t, outRanks), true)
    else if outRanks(x, t.data) then (t, false)
    else
      var (l, inLeft) := Remove(t.left, x, outRanks);
      if inLeft then (Node(t.size - 1, t.data, l, t.right), true)
      else
        var (r, inRight) := Remove(t.right, x, outRanks);
        if inRight then (Node(t.size - 1, t.data, t.left, r), true) else (t, false)
  }

  lemma {:induction false} RemoveCounts<T>(t: Tree<T>, x: T, outRanks: (T, T) -> bool)
    ensures var (rest, found) := Remove(t, x, outRanks);
            && (if found then Count(t) == Count(rest) + 1 else rest == t)
            && (Sized(t) ==> Sized(rest))
  {
    if t.Node? {
      if x == t.data {
        PopCounts(t, outRanks);
      } else {
        RemoveCounts(t.left, x, outRanks);
        RemoveCounts(t.right, x, outRanks);
      }
    }
  }

  lemma {:induction false} RemoveOccurrences<T>(t: Tree<T>, x: T, y: T, outRanks: (T, T) -> bool)
    ensures var (rest, found) := Remove(t, x, outRanks);
            Occurs(t, y) == Occurs(rest, y) + if found && x == y then 1 else 0
  {
    if t.Node? {
      if x == t.data {
        PopOccurrences(t, y, outRanks);
      } else {
        RemoveOccurrences(t.left, x, y, outRanks);
        RemoveOccurrences(t.right, x, y, outRanks);
      }
    }
  }

  lemma {:induction false} RemoveTops<T>(d: T, t: Tree<T>, x: T, outRanks: (T, T) -> bool)
    requires Tops(d, t, outRanks)
    ensures Tops(d, Remove(t, x, outRanks).0, outRanks)
  {
    if t.Node? {
      if x == t.data {
        PopTops(d, t, outRanks);
      } else {
        RemoveTops(d, t.left, x, outRanks);
        RemoveTops(d, t.right, x, outRanks);
      }
    }
  }

  lemma {:induction false} RemoveOrdered<T(!new)>(t: Tree<T>, x: T, outRanks: (T, T) -> bool)
    requires RankOrder(outRanks) && Ordered(t, outRanks)
    ensures Ordered(Remove(t, x, outRanks).0, outRanks)
  {
    if t.Node? {
      if x == t.data {
        PopOrdered(t, outRanks);
      } else {
        RemoveOrdered(t.left, x, outRanks);
        RemoveOrdered(t.right, x, outRanks);
        RemoveTops(t.data, t.left, x, outRanks);
        RemoveTops(t.data, t.right, x, outRanks);
      }
    }
  }

  lemma {:induction false} RemoveFinds<T(!new)>(t: Tree<T>, x: T, outRanks: (T, T) -> bool)
    requires RankOrder(outRanks) && Ordered(t, outRanks) && Occurs(t, x) > 0
    ensures Remove(t, x, outRanks).1
  {
    if x != t.data {
      TopsEach(t.data, t, x, outRanks);
      if Occurs(t.left, x) > 0 {
        RemoveFinds(t.left, x, outRanks);
      } else {
        RemoveFinds(t.right, x, outRanks);
      }
    }
  }

  /** The pruning never hides an element: remove succeeds exactly on what the tree holds, takes
      out one occurrence, and leaves the top alone unless it was the one removed. */
  lemma RemoveIsComplete<T(!new)>(t: Tree<T>, x: T, outRanks: (T, T) -> bool)
    requires RankOrder(outRanks) && Valid(t, outRanks)
    ensures var (rest, found) := Remove(t, x, outRanks);
            && (found <==> Occurs(t, x) > 0)
            && (forall y :: Occurs(t, y) == Occurs(rest, y) + if found && x == y then 1 else 0)
            && (!found ==> rest == t)
            && Valid(rest, outRanks)
            && (t.Node? && t.data != x ==> rest.Node? && rest.data == t.data)
  {
    RemoveCounts(t, x, outRanks);
    RemoveOrdered(t, x, outRanks);
    if Occurs(t, x) > 0 {
      RemoveFinds(t, x, outRanks);
    }
    forall y {
      RemoveOccurrences(t, x, y, outRanks);
    }
  }

  // ------------------------------------------------------- the heap over a run

  datatype Op<T> = PushOp(x: T) | PopOp | RemoveOp(x: T)

  /** The heap after one call, and what the call handed out. */
  function Do<T(==)>(t: Tree<T>, op: Op<T>, outRanks: (T, T) -> bool): (Tree<T>, seq<T>) {
    match op
    case PushOp(x) => (Push(t, x, outRanks), [])
    case PopOp => if t.Leaf? then (Leaf, []) else (Pop(t, outRanks), [t.data])
    case RemoveOp(x) =>
      var (rest, found) := Remove(t, x, outRanks);
      (rest, if found then [x] else [])
  }

  function Run<T(==)>(ops: seq<Op<T>>, outRanks: (T, T) -> bool): Tree<T> {
    if ops == [] then Leaf
    else Do(Run(ops[..|ops| - 1], outRanks), ops[|ops| - 1], outRanks).0
  }

  /** The simple form: a bag of elements. `out` is what a call may hand out from it. */
  ghost predicate BagStep<T>(bag: multiset<T>, op: Op<T>, bag': multiset<T>, out: seq<T>,
                             outRanks: (T, T) -> bool) {
    match op
    case PushOp(x) => bag' == bag + multiset{x} && out == []
    case PopOp =>
      if out == [] then bag == multiset{} == bag'
      else && |out| == 1 && bag == bag' + multiset{out[0]}
           && forall y :: y in bag ==> !outRanks(y, out[0])
    case RemoveOp(x) =>
      if x in bag then bag == bag' + multiset{x} && out == [x] else bag' == bag && out == []
  }

  lemma DoRefinesBag<T(!new)>(t: Tree<T>, op: Op<T>, outRanks: (T, T) -> bool)
    requires RankOrder(outRanks) && Valid(t, outRanks)
    ensures Valid(Do(t, op, outRanks).0, outRanks)
    ensures BagStep(Elems(t), op, Elems(Do(t, op, outRanks).0), Do(t, op, outRanks).1, outRanks)
  {
    var t' := Do(t, op, outRanks).0;
    match op
    case PushOp(x) =>
      PushAdds(t, x, outRanks);
      DifferByOne(t', t, x);
    case PopOp =>
      if t.Node? {
        PopRemovesTop(t, outRanks);
        DifferByOne(t, t', t.data);
        forall y | y in Elems(t) ensures Occurs(t, y) > 0 {
          OccursElems(t, y);
        }
      }
    case RemoveOp(x) =>
      RemoveIsComplete(t, x, outRanks);
      OccursElems(t, x);
      if Remove(t, x, outRanks).1 {
        DifferByOne(t, t', x);
      }
  }

  /** Whatever calls are made, in whatever order, every one of them acts on the heap as it would
      on a bag that hands out an element nothing outranks. */
  lemma {:induction false} HeapRefinesBag<T(!new)>(ops: seq<Op<T>>, k: nat, outRanks: (T, T) -> bool)
    requires RankOrder(outRanks) && k <= |ops|
    ensures var t := Run(ops[..k], outRanks);
            && Valid(t, outRanks)
            && (k < |ops| ==>
                 && Run(ops[..k + 1], outRanks) == Do(t, ops[k], outRanks).0
                 && BagStep(Elems(t), ops[k], Elems(Run(ops[..k + 1], outRanks)),
                            Do(t, ops[k], outRanks).1, outRanks))
  {
    if k > 0 {
      HeapRefinesBag(ops, k - 1, outRanks);
      assert ops[..k][..k - 1] == ops[..k - 1];
      DoRefinesBag(Run(ops[..k - 1], outRanks), ops[k - 1], outRanks);
    }
    if k < |ops| {
      assert ops[..k + 1][..k] == ops[..k];
      DoRefinesBag(Run(ops[..k], outRanks), ops[k], outRanks);
    }
  }

  /** Popping until nothing is left. */
  function PopAll<T>(t: Tree<T>, outRanks: (T, T) -> bool): seq<T>
    requires Sized(t)
    decreases Count(t)
  {
    if t.Leaf? then []
    else
      PopCounts(t, outRanks);
      [t.data] + PopAll(Pop(t, outRanks), outRanks)
  }

  lemma {:induction false} PopAllOccurs<T(!new)>(t: Tree<T>, x: T, outRanks: (T, T) -> bool)
    requires Sized(t)
    ensures multiset(PopAll(t, outRanks))[x] == Occurs(t, x)
    decreases Count(t)
  {
    if t.Node? {
      PopCounts(t, outRanks);
      PopOccurrences(t, x, outRanks);
      PopAllOccurs(Pop(t, outRanks), x, outRanks);
    }
  }

  /** Popping to empty yields everything, highest rank first. */
  lemma {:induction false} PopAllSorts<T(!new)>(t: Tree<T>, outRanks: (T, T) -> bool)
    requires RankOrder(outRanks) && Valid(t, outRanks)
    ensures forall x :: multiset(PopAll(t, outRanks))[x] == Occurs(t, x)
    ensures forall i, j :: 0 <= i < j < |PopAll(t, outRanks)| ==>
              !outRanks(PopAll(t, outRanks)[j], PopAll(t, outRanks)[i])
    decreases Count(t)
  {
    forall x {
      PopAllOccurs(t, x, outRanks);
    }
    if t.Node? {
      PopCounts(t, outRanks);
      PopRemovesTop(t, outRanks);
      PopAllSorts(Pop(t, outRanks), outRanks);
      var all, rest := PopAll(t, outRanks), PopAll(Pop(t, outRanks), outRanks);
      assert all == [t.data] + rest;
      forall j | 0 <= j < |rest| ensures !outRanks(rest[j], t.data) {
        assert rest[j] in multiset(rest);
        assert Occurs(t, rest[j]) > 0;
      }
    }
  }

  // --------------------------------------------------------------- the balance

  function PushAll<T>(xs: seq<T>, outRanks: (T, T) -> bool): Tree<T> {
    if xs == [] then Leaf
    else Push(PushAll(xs[..|xs| - 1], outRanks), xs[|xs| - 1], outRanks)
  }

  /** At every node the left subtree is as large as the right one, or larger by one. */
  ghost predicate Braun<T>(t: Tree<T>) {
    t.Node? ==>
      && Count(t.right) <= Count(t.left) <= Count(t.right) + 1
      && Braun(t.left) && Braun(t.right)
  }

  /** How many times push calls itself. */
  function PushDepth<T>(t: Tree<T>): nat {
    if t.Leaf? || t.left.Leaf? || t.right.Leaf? then 0
    else 1 + PushDepth(if t.left.size <= t.right.size then t.left else t.right)
  }

  function Height<T>(t: Tree<T>): nat {
    if t.Leaf? then 0
    else 1 + var (l, r) := (Height(t.left), Height(t.right)); if l < r then r else l
  }

  function Pow2(n: nat): nat {
    if n == 0 then 1 else 2 * Pow2(n - 1)
  }

  lemma {:induction false} PushKeepsBraun<T>(t: Tree<T>, x: T, outRanks: (T, T) -> bool)
    requires Sized(t) && Braun(t)
    ensures Braun(Push(t, x, outRanks))
  {
    if t.Node? {
      var low := if outRanks(x, t.data) then t.data else x;
      PushCounts(t.left, low, outRanks);
      PushCounts(t.right, low, outRanks);
      PushKeepsBraun(t.left, low, outRanks);
      PushKeepsBraun(t.right, low, outRanks);
    }
  }

  lemma {:induction false} Pow2Grows(m: nat, n: nat)
    requires m <= n
    ensures Pow2(m) <= Pow2(n)
  {
    if m < n {
      Pow2Grows(m, n - 1);
    }
  }

  lemma {:induction false} BraunIsShallow<T>(t: Tree<T>)
    requires Sized(t) && Braun(t)
    ensures t.Node? ==> Pow2(Height(t) - 1) <= Count(t) < Pow2(Height(t))
  {
    if t.Node? {
      BraunIsShallow(t.left);
      BraunIsShallow(t.right);
      if t.right.Node? {
        HeightsDiffer(Height(t.left), Height(t.right), Count(t.left), Count(t.right));
      }
    }
  }

  /** Two sizes that are equal, or one apart, have binary lengths that are. */
  lemma HeightsDiffer(l: nat, r: nat, countL: nat, countR: nat)
    requires 0 < l && 0 < r && countR <= countL <= countR + 1
    requires Pow2(l - 1) <= countL < Pow2(l) && Pow2(r - 1) <= countR < Pow2(r)
    ensures l == r || (l == r + 1 && countL == Pow2(r))
  {
    if l < r {
      Pow2Grows(l, r - 1);
    } else if l > r + 1 {
      Pow2Grows(r + 1, l - 1);
    }
  }

  lemma {:induction false} DepthIsLess<T>(t: Tree<T>)
    ensures t.Node? ==> PushDepth(t) <= Height(t) - 1
  {
    if t.Node? {
      DepthIsLess(t.left);
      DepthIsLess(t.right);
    }
  }

  lemma {:induction false} PushAllIsBraun<T>(xs: seq<T>, outRanks: (T, T) -> bool)
    ensures var t := PushAll(xs, outRanks); Sized(t) && Braun(t) && Count(t) == |xs|
  {
    if xs != [] {
      var prior := PushAll(xs[..|xs| - 1], outRanks);
      PushAllIsBraun(xs[..|xs| - 1], outRanks);
      PushCounts(prior, xs[|xs| - 1], outRanks);
      PushKeepsBraun(prior, xs[|xs| - 1], outRanks);
    }
  }

  /** A heap built by pushes alone is balanced: its height, and with it the recursion of a further
      push, is the logarithm of its size. */
  lemma PushesAloneBalance<T>(xs: seq<T>, outRanks: (T, T) -> bool)
    ensures var t := PushAll(xs, outRanks);
            && Braun(t) && Count(t) == |xs|
            && (xs != [] ==> Pow2(Height(t) - 1) <= |xs| < Pow2(Height(t)))
            && Pow2(PushDepth(t)) <= |xs| + 1
  {
    var t := PushAll(xs, outRanks);
    PushAllIsBraun(xs, outRanks);
    BraunIsShallow(t);
    DepthIsLess(t);
    if t.Node? {
      Pow2Grows(PushDepth(t), Height(t) - 1);
    }
  }
}
