/** gps/utils/linked_list.c: a doubly linked list whose links are rewritten in place. It is shown to
    be a sequence, newest element first. */
module LinkedList {
  import opened Wrappers

  /** An address; NULL is 0. */
  type Ptr = nat
  const NULL: Ptr := 0

  datatype Status = Success | FailureGeneral | InvalidParameter | UnavailableResource

  /** What one element carries: the data, and whether a dealloc function came with it. */
  datatype Item = Item(data: Ptr, owned: bool)

  class ListElement {
    var next: ListElement?
    var prev: ListElement?
    const item: Item

    constructor (item: Item)
      ensures next == null && prev == null && this.item == item
    {
      next, prev, this.item := null, null, item;
    }
  }

  /** What the dealloc functions are called on when these items go. */
  function Owned(items: seq<Item>): seq<Ptr> {
    if items == [] then []
    else (if items[0].owned then [items[0].data] else []) + Owned(items[1..])
  }

  lemma OwnedFirst(freed: seq<Ptr>, items: seq<Item>)
    requires items != []
    ensures freed + Owned(items) == (if items[0].owned then freed + [items[0].data] else freed) + Owned(items[1..])
  {
  }

  lemma {:induction false} OwnedAppend(items: seq<Item>, item: Item)
    ensures Owned(items + [item]) == Owned(items) + if item.owned then [item.data] else []
  {
    var tail := if item.owned then [item.data] else [];
    if items == [] {
      assert items + [item] == [item] && Owned([]) == [];
    } else {
      var head := if items[0].owned then [items[0].data] else [];
      var rest := Owned(items[1..]);
      assert (items + [item])[1..] == items[1..] + [item];
      OwnedAppend(items[1..], item);
      assert head + (rest + tail) == (head + rest) + tail;
    }
  }

  /** The elements with this data that brought a dealloc function. */
  function OwnersOf(items: seq<Item>, data: Ptr): set<int> {
    set i | 0 <= i < |items| && items[i].owned && items[i].data == data
  }

  lemma OwnersAppend(items: seq<Item>, item: Item, data: Ptr)
    ensures |OwnersOf(items + [item], data)|
         == |OwnersOf(items, data)| + if item.owned && item.data == data then 1 else 0
  {
    var more := if item.owned && item.data == data then {|items|} else {};
    assert OwnersOf(items + [item], data) == OwnersOf(items, data) + more;
  }

  lemma {:induction false} OwnedIsOncePerOwner(items: seq<Item>, data: Ptr)
    ensures multiset(Owned(items))[data] == |OwnersOf(items, data)|
  {
    if items != [] {
      var rest, last := items[..|items| - 1], items[|items| - 1];
      assert items == rest + [last];
      OwnedIsOncePerOwner(rest, data);
      OwnedAppend(rest, last);
      OwnersAppend(rest, last, data);
    }
  }

  /** Data is freed once for each element that has it and brought a dealloc function, and for no other. */
  lemma EachOwnerOnce(items: seq<Item>)
    ensures forall data :: multiset(Owned(items))[data]
              == |set i | 0 <= i < |items| && items[i].owned && items[i].data == data|
  {
    forall data: Ptr
      ensures multiset(Owned(items))[data]
           == |set i | 0 <= i < |items| && items[i].owned && items[i].data == data|
    {
      OwnedIsOncePerOwner(items, data);
    }
  }

  /** The position of the first match, or the length if there is none. */
  function FirstMatch(items: seq<Item>, equal: Ptr -> bool): (k: nat)
    ensures k <= |items|
    ensures k < |items| ==> equal(items[k].data)
    ensures forall i :: 0 <= i < k ==> !equal(items[i].data)
  {
    if items == [] || equal(items[0].data) then 0 else 1 + FirstMatch(items[1..], equal)
  }

  ghost function At(nodes: seq<ListElement>, i: int): ListElement? {
    if 0 <= i < |nodes| then nodes[i] else null
  }

  /** The links of the element at `i` lead to its neighbours. */
  ghost predicate Mirrored(nodes: seq<ListElement>, i: int)
    requires 0 <= i < |nodes|
    reads nodes[i]
  {
    nodes[i].next == At(nodes, i + 1) && nodes[i].prev == At(nodes, i - 1)
  }

  /** As Mirrored, but with the element at `k` passed over. */
  ghost predicate MirroredPast(nodes: seq<ListElement>, k: int, i: int)
    requires 0 <= i < |nodes|
    reads nodes[i]
  {
    && nodes[i].next == At(nodes, if i == k - 1 then k + 1 else i + 1)
    && nodes[i].prev == At(nodes, if i == k + 1 then k - 1 else i - 1)
  }

  ghost predicate Distinct(nodes: seq<ListElement>) {
    forall i, j :: 0 <= i < j < |nodes| ==> nodes[i] != nodes[j]
  }

  ghost function Without(nodes: seq<ListElement>, k: int): seq<ListElement>
    requires 0 <= k < |nodes|
  {
    nodes[..k] + nodes[k + 1..]
  }

  lemma WithoutAt(nodes: seq<ListElement>, k: int, i: int)
    requires 0 <= k < |nodes| && i < |nodes| - 1
    ensures At(Without(nodes, k), i) == At(nodes, if i < k then i else i + 1)
  {
  }

  lemma WithoutOne(nodes: seq<ListElement>, k: int)
    requires 0 <= k < |nodes| && Distinct(nodes)
    ensures Distinct(Without(nodes, k)) && nodes[k] !in Without(nodes, k)
  {
    var rest := Without(nodes, k);
    assert forall i :: 0 <= i < |rest| ==> rest[i] == nodes[if i < k then i else i + 1];
  }

  lemma WithoutItem(nodes: seq<ListElement>, k: int)
    requires 0 <= k < |nodes|
    ensures ItemsOf(Without(nodes, k)) == ItemsOf(nodes)[..k] + ItemsOf(nodes)[k + 1..]
  {
    var rest := ItemsOf(Without(nodes, k));
    forall i | 0 <= i < |rest| ensures rest[i] == (ItemsOf(nodes)[..k] + ItemsOf(nodes)[k + 1..])[i] {
    }
  }

  lemma PastIsMirrored(nodes: seq<ListElement>, k: int, i: int)
    requires 0 <= k < |nodes| && 0 <= i < |nodes| - 1
    requires MirroredPast(nodes, k, if i < k then i else i + 1)
    ensures Mirrored(Without(nodes, k), i)
  {
    WithoutAt(nodes, k, i);
    WithoutAt(nodes, k, i - 1);
    if i + 1 < |nodes| - 1 {
      WithoutAt(nodes, k, i + 1);
    }
  }

  /** The items that elements carry, in order. */
  ghost function ItemsOf(nodes: seq<ListElement>): (items: seq<Item>)
    ensures |items| == |nodes| && forall i :: 0 <= i < |nodes| ==> items[i] == nodes[i].item
  {
    seq(|nodes|, i requires 0 <= i < |nodes| => nodes[i].item)
  }

  lemma AddedItem(elem: ListElement, nodes: seq<ListElement>)
    ensures ItemsOf([elem] + nodes) == [elem.item] + ItemsOf(nodes)
    ensures Distinct(nodes) && elem !in nodes ==> Distinct([elem] + nodes)
    ensures forall i {:trigger At(nodes, i)} :: 0 <= i ==> At([elem] + nodes, i + 1) == At(nodes, i)
  {
  }

  class ListState {
    var pHead: ListElement?
    var pTail: ListElement?
    ghost var nodes: seq<ListElement>

    ghost predicate Valid()
      reads this, nodes
    {
      && Distinct(nodes)
      && pHead == At(nodes, 0)
      && pTail == At(nodes, |nodes| - 1)
      && (forall i :: 0 <= i < |nodes| ==> Mirrored(nodes, i))
    }

    /** The items, from head to tail. */
    ghost function Items(): (items: seq<Item>)
      reads this, nodes
    {
      ItemsOf(nodes)
    }

    constructor ()
      ensures Valid() && Items() == [] && nodes == []
    {
      pHead, pTail, nodes := null, null, [];
    }

    /** linked_list_add. `room` says whether malloc succeeds. */
    method Add(data: Ptr, dealloc: bool, room: bool) returns (rv: Status)
      requires Valid()
      modifies this, nodes
      ensures Valid() && fresh(set n | n in nodes && n !in old(nodes))
      ensures rv == if data == NULL then InvalidParameter else if !room then FailureGeneral else Success
      ensures Items() == if rv == Success then [Item(data, dealloc)] + old(Items()) else old(Items())
    {
      if data == NULL {
        return InvalidParameter;
      }
      if !room {
        return FailureGeneral;
      }
      var elem := new ListElement(Item(data, dealloc));
      AddedItem(elem, nodes);
      Link(elem);
      return Success;
    }

    /** The pointer updates that put `elem` in front. */
    method Link(elem: ListElement)
      requires Valid() && elem !in nodes && elem.prev == null
      modifies this, nodes, elem
      ensures Valid() && nodes == [elem] + old(nodes)
    {
      var tmp := pHead;
      pHead := elem;
      elem.next := tmp;
      if tmp != null {
        tmp.prev := elem;
      } else {
        pTail := elem;
      }
      ghost var was := nodes;
      nodes := [elem] + was;
      AddedItem(elem, was);
      forall i | 0 <= i < |nodes| ensures Mirrored(nodes, i) {
        if i > 0 {
          assert old(Mirrored(was, i - 1));
          assert nodes[i] == was[i - 1];
        }
      }
    }

    /** linked_list_remove: takes the oldest. None says that the caller's pointer is not written. */
    method Remove() returns (rv: Status, data: Option<Ptr>)
      requires Valid()
      modifies this, nodes
      ensures Valid() && nodes <= old(nodes)
      ensures if old(Items()) == [] then rv == UnavailableResource && Items() == [] && data == None
              else rv == Success && old(Items()) == Items() + [old(Items())[|old(Items())| - 1]]
                   && data == Some(old(Items())[|old(Items())| - 1].data)
    {
      if pTail == null {
        return UnavailableResource, None;
      }
      var tmp := pTail;
      ghost var k := |nodes| - 1;
      CutTail(k);
      forall i | 0 <= i < k ensures Mirrored(Without(nodes, k), i) {
        PastIsMirrored(nodes, k, i);
      }
      WithoutOne(nodes, k);
      WithoutItem(nodes, k);
      assert Without(nodes, k) == nodes[..k];
      nodes := nodes[..k];
      return Success, Some(tmp.item.data);
    }

    /** The pointer updates that take the last element out. */
    method CutTail(ghost k: nat)
      requires Valid() && |nodes| == k + 1
      modifies this`pHead, this`pTail, nodes
      ensures pHead == At(nodes, if k == 0 then 1 else 0) && pTail == At(nodes, k - 1)
      ensures forall i :: 0 <= i < k ==> MirroredPast(nodes, k, i)
    {
      assert Mirrored(nodes, k);
      pTail := pTail.prev;
      if pTail != null {
        pTail.next := null;
      } else {
        pHead := pTail;
      }
      forall i | 0 <= i < k ensures MirroredPast(nodes, k, i) {
        assert old(Mirrored(nodes, i));
        assert i < k - 1 ==> nodes[i] != nodes[k - 1];
      }
    }

    method Empty() returns (empty: bool)
      requires Valid()
      ensures empty == (Items() == [])
    {
      return pHead == null;
    }

    /** linked_list_flush. `freed` lists the calls of the dealloc functions. */
    method Flush() returns (freed: seq<Ptr>)
      requires Valid()
      modifies this
      ensures Valid() && Items() == []
      ensures freed == Owned(old(Items()))
      ensures forall data :: multiset(freed)[data]
                == |set i | 0 <= i < |old(Items())| && old(Items())[i].owned && old(Items())[i].data == data|
    {
      freed := [];
      ghost var k := 0;
      ghost var items := Items();
      while pHead != null
        invariant nodes == old(nodes) && 0 <= k <= |nodes|
        invariant pHead == At(nodes, k)
        invariant Owned(items) == freed + Owned(items[k..])
        decreases |nodes| - k
      {
        assert Mirrored(nodes, k);
        OwnedFirst(freed, items[k..]);
        assert items[k..][1..] == items[k + 1..];
        var tmp := pHead.next;
        if pHead.item.owned {
          freed := freed + [pHead.item.data];
        }
        pHead := tmp;
        k := k + 1;
      }
      pTail, nodes := null, [];
      assert items[k..] == [] && freed + Owned([]) == freed;
      EachOwnerOnce(items);
    }

    /** linked_list_search: from the newest on. `wanted` says whether the caller passed data_p. */
    method Search(wanted: bool, equal: Ptr -> bool, rmIfFound: bool)
      returns (rv: Status, found: Option<Ptr>, freed: seq<Ptr>)
      requires Valid()
      modifies this, nodes
      ensures Valid() && forall n :: n in nodes ==> n in old(nodes)
      ensures rv == if old(Items()) == [] then UnavailableResource else Success
      ensures var items := old(Items());
              var k := FirstMatch(items, equal);
              if k == |items| then Items() == items && found == None && freed == []
              else
                && found == (if wanted then Some(items[k].data) else None)
                && Items() == (if rmIfFound then items[..k] + items[k + 1..] else items)
                && freed == if rmIfFound && !wanted && items[k].owned then [items[k].data] else []
    {
      found, freed := None, [];
      if pTail == null {
        return UnavailableResource, None, [];
      }
      rv := Success;
      var tmp := Find(equal);
      ghost var k := FirstMatch(Items(), equal);
      if tmp != null {
        if wanted {
          found := Some(tmp.item.data);
        }
        if rmIfFound {
          if !wanted && tmp.item.owned {
            freed := [tmp.item.data];
          }
          Unlink(tmp, k);
        }
      }
    }

    /** The loop: the first element that matches. */
    method Find(equal: Ptr -> bool) returns (tmp: ListElement?)
      requires Valid()
      ensures tmp == At(nodes, FirstMatch(Items(), equal))
    {
      tmp := pHead;
      ghost var k := 0;
      ghost var items := Items();
      while tmp != null && !equal(tmp.item.data)
        invariant 0 <= k <= |nodes|
        invariant tmp == At(nodes, k)
        invariant forall i :: 0 <= i < k ==> !equal(items[i].data)
        decreases |nodes| - k
      {
        assert Mirrored(nodes, k);
        tmp := tmp.next;
        k := k + 1;
      }
      assert k == FirstMatch(items, equal);
    }

    /** The pointer updates that take `elem` out. */
    method Unlink(elem: ListElement, ghost k: nat)
      requires Valid() && k < |nodes| && nodes[k] == elem
      modifies this, nodes
      ensures Valid() && nodes == Without(old(nodes), k)
      ensures Items() == old(Items())[..k] + old(Items())[k + 1..]
    {
      Bypass(elem, k);
      forall i | 0 <= i < |nodes| - 1 ensures Mirrored(Without(nodes, k), i) {
        PastIsMirrored(nodes, k, i);
      }
      WithoutOne(nodes, k);
      WithoutItem(nodes, k);
      if |nodes| > 1 {
        WithoutAt(nodes, k, 0);
        WithoutAt(nodes, k, |nodes| - 2);
      }
      nodes := Without(nodes, k);
    }

    method Bypass(elem: ListElement, ghost k: nat)
      requires Valid() && k < |nodes| && nodes[k] == elem
      modifies this`pHead, this`pTail, nodes
      ensures pHead == At(nodes, if k == 0 then 1 else 0)
      ensures pTail == At(nodes, if k == |nodes| - 1 then k - 1 else |nodes| - 1)
      ensures forall j :: 0 <= j < |nodes| && j != k ==> MirroredPast(nodes, k, j)
    {
      assert Mirrored(nodes, k);
      if elem.prev == null {
        pHead := elem.next;
      } else {
        elem.prev.next := elem.next;
      }
      if elem.next == null {
        pTail := elem.prev;
      } else {
        elem.next.prev := elem.prev;
      }
      elem.prev, elem.next := null, null;
      forall j | 0 <= j < |nodes| && j != k ensures MirroredPast(nodes, k, j) {
        assert old(Mirrored(nodes, j));
        assert nodes[j] != elem;
        assert j != k - 1 && k > 0 ==> nodes[j] != nodes[k - 1];
        assert j != k + 1 && k + 1 < |nodes| ==> nodes[j] != nodes[k + 1];
      }
    }
  }

  /** The same items, the other way round. */
  function Reversed<T>(s: seq<T>): (r: seq<T>)
    ensures |r| == |s| && forall i :: 0 <= i < |s| ==> r[i] == s[|s| - 1 - i]
  {
    seq(|s|, i requires 0 <= i < |s| => s[|s| - 1 - i])
  }

  /** Add is at the back and Remove at the front of the queue of the items, oldest first. */
  lemma AddRemoveIsFifo(items: seq<Item>, item: Item)
    ensures Reversed([item] + items) == Reversed(items) + [item]
    ensures items != [] ==>
              Reversed(items)[0] == items[|items| - 1]
              && Reversed(items)[1..] == Reversed(items[..|items| - 1])
  {
  }
}
